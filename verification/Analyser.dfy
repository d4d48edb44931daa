/** The relational analyser: measurements with the same contract trace are split greedily into classes
of equivalent hardware traces; a contract class with two hardware classes is a violation.

Hashes of traces are taken to be free of collisions, so groups are keyed by the traces themselves.
*/
module Analyser {
  import opened Common

  datatype Measurement<C, H> = Measurement(inputId: nat, ctrace: C, htrace: H)

  type Relation<!H> = (H, H) -> bool

  // ---------------------------------------------------------------------------------------------
  // Contract classes

  /** The measurements with a contract trace, in input order. */
  function WithCtrace<C(==,!new), H(!new)>(ms: seq<Measurement<C, H>>, c: C): (r: seq<Measurement<C, H>>)
    ensures forall m :: m in r <==> m in ms && m.ctrace == c
    decreases |ms|
  {
    if |ms| == 0 then []
    else
      var rest := WithCtrace(ms[..|ms| - 1], c);
      if ms[|ms| - 1].ctrace == c then rest + [ms[|ms| - 1]] else rest
  }

  lemma NoneWithCtrace<C(!new), H(!new)>(ms: seq<Measurement<C, H>>, c: C)
    requires forall m :: m in ms ==> m.ctrace != c
    ensures WithCtrace(ms, c) == []
  {}

  /** Group the measurements by contract trace, in the order in which the traces first occur. */
  method BuildContractClasses<C(==,!new), H(!new)>(ms: seq<Measurement<C, H>>)
    returns (ctraces: seq<C>, classes: seq<seq<Measurement<C, H>>>)
    ensures |classes| == |ctraces| && Distinct(ctraces)
    ensures forall c :: c in ctraces <==> exists m :: m in ms && m.ctrace == c
    ensures forall i :: 0 <= i < |classes| ==> classes[i] == WithCtrace(ms, ctraces[i]) && |classes[i]| > 0
  {
    ctraces, classes := [], [];
    for k := 0 to |ms|
      invariant |classes| == |ctraces| && Distinct(ctraces)
      invariant forall c :: c in ctraces <==> exists m :: m in ms[..k] && m.ctrace == c
      invariant forall i :: 0 <= i < |classes| ==> classes[i] == WithCtrace(ms[..k], ctraces[i]) && |classes[i]| > 0
    {
      var m := ms[k];
      assert ms[..k + 1][..k] == ms[..k];
      assert forall c :: WithCtrace(ms[..k + 1], c) ==
                           if m.ctrace == c then WithCtrace(ms[..k], c) + [m] else WithCtrace(ms[..k], c);
      if i :| 0 <= i < |ctraces| && ctraces[i] == m.ctrace {
        classes := classes[i := classes[i] + [m]];
      } else {
        assert m.ctrace !in ctraces;
        NoneWithCtrace(ms[..k], m.ctrace);
        ctraces, classes := ctraces + [m.ctrace], classes + [[m]];
      }
    }
    assert ms[..|ms|] == ms;
  }

  // ---------------------------------------------------------------------------------------------
  // Hardware classes

  /** The measurements that an assignment puts into class `c`, in input order. */
  function Members<C, H>(ms: seq<Measurement<C, H>>, of: seq<nat>, c: nat): (r: seq<Measurement<C, H>>)
    requires |of| == |ms|
    decreases |ms|
  {
    if |ms| == 0 then []
    else
      var rest := Members(ms[..|ms| - 1], of[..|ms| - 1], c);
      if of[|ms| - 1] == c then rest + [ms[|ms| - 1]] else rest
  }

  ghost predicate Reflexive<H(!new)>(eq: Relation<H>) {
    forall h :: eq(h, h)
  }

  ghost predicate Equivalence<H(!new)>(eq: Relation<H>) {
    && Reflexive(eq)
    && (forall a, b :: eq(a, b) ==> eq(b, a))
    && (forall a, b, c :: eq(a, b) && eq(b, c) ==> eq(a, c))
  }

  /** An equivalence relation among the traces of a kind. */
  ghost predicate EquivalenceOn<H(!new)>(eq: Relation<H>, kind: H -> bool) {
    && (forall a :: kind(a) ==> eq(a, a))
    && (forall a, b :: kind(a) && kind(b) && eq(a, b) ==> eq(b, a))
    && (forall a, b, c :: kind(a) && kind(b) && kind(c) && eq(a, b) && eq(b, c) ==> eq(a, c))
  }

  /** Every measurement belongs to the first class whose representative it is equivalent to, and a
      class is opened only by a measurement that is equivalent to no earlier representative. */
  ghost predicate Greedy<C, H>(ms: seq<Measurement<C, H>>, eq: Relation<H>, of: seq<nat>, reps: seq<H>) {
    && |of| == |ms|
    && (forall k :: 0 <= k < |ms| ==> of[k] < |reps| && eq(ms[k].htrace, reps[of[k]]))
    && (forall k, c :: 0 <= k < |ms| && 0 <= c < of[k] ==> !eq(ms[k].htrace, reps[c]))
    && (forall c, d :: 0 <= c < d < |reps| ==> !eq(reps[d], reps[c]))
  }

  /** A map that remembers the order of insertion, as Python's dictionaries do. */
  datatype Groups<C, H> = Groups(keys: seq<H>, values: seq<seq<Measurement<C, H>>>)

  function IndexOf<T(==)>(s: seq<T>, x: T): (i: nat)
    ensures i <= |s| && (i < |s| <==> x in s) && (i < |s| ==> s[i] == x)
  {
    if |s| == 0 || s[0] == x then 0 else 1 + IndexOf(s[1..], x)
  }

  /** Assign to a key: an existing key keeps its place. */
  function Assigned<C, H(==)>(g: Groups<C, H>, key: H, value: seq<Measurement<C, H>>): (r: Groups<C, H>)
    requires |g.keys| == |g.values|
    ensures |r.keys| == |r.values|
    ensures key !in g.keys ==> r == Groups(g.keys + [key], g.values + [value])
    ensures key in g.keys ==> r.keys == g.keys
    ensures key in r.keys && forall k :: k in g.keys ==> k in r.keys
  {
    var i := IndexOf(g.keys, key);
    if i < |g.keys| then g.(values := g.values[i := value])
    else Groups(g.keys + [key], g.values + [value])
  }

  /** Some measurement differs from the first one and is not equivalent to it. */
  ghost predicate Diverges<C(!new), H(!new)>(ms: seq<Measurement<C, H>>, eq: Relation<H>) {
    exists m :: m in ms && !eq(m.htrace, ms[0].htrace) && m.htrace != ms[0].htrace
  }

  /** The groups of a prefix, for any relation: a second key stands for a diverging measurement. */
  ghost predicate Spread<C(!new), H(!new)>(ms: seq<Measurement<C, H>>, eq: Relation<H>, keys: seq<H>,
                                           diverging: seq<H>) {
    && (|ms| == 0 ==> keys == diverging == [])
    && (|ms| > 0 ==> |keys| > 0 && |diverging| > 0 && diverging[0] == keys[0] == ms[0].htrace)
    && (forall h :: h in diverging ==> h in keys)
    && (|keys| >= 2 <==> Diverges(ms, eq))
  }

  /** The groups of a prefix, for a reflexive relation. */
  ghost predicate Partitioned<C(!new), H(!new)>(ms: seq<Measurement<C, H>>, eq: Relation<H>, of: seq<nat>,
                                                groups: Groups<C, H>) {
    && |groups.keys| == |groups.values|
    && Greedy(ms, eq, of, groups.keys)
    && forall c :: 0 <= c < |groups.keys| ==> groups.values[c] == Members(ms, of, c) && |groups.values[c]| > 0
  }

  /** The place of a measurement: the first representative it is equivalent to, or a new one. */
  ghost predicate PlaceOf<C(!new), H(!new)>(m: Measurement<C, H>, eq: Relation<H>, diverging: seq<H>, c: nat) {
    && c <= |diverging| && (c < |diverging| ==> eq(m.htrace, diverging[c]))
    && forall d :: 0 <= d < c ==> !eq(m.htrace, diverging[d])
  }

  lemma DivergesMore<C(!new), H(!new)>(ms: seq<Measurement<C, H>>, m: Measurement<C, H>, eq: Relation<H>)
    ensures |ms| == 0 ==> !Diverges(ms + [m], eq)
    ensures |ms| > 0 ==> (Diverges(ms + [m], eq) <==>
                            Diverges(ms, eq) || (!eq(m.htrace, ms[0].htrace) && m.htrace != ms[0].htrace))
  {
    assert m in ms + [m];
  }

  lemma SpreadOn<C(!new), H(!new)>(ms: seq<Measurement<C, H>>, m: Measurement<C, H>, eq: Relation<H>, keys: seq<H>,
                                   diverging: seq<H>, c: nat)
    requires Spread(ms, eq, keys, diverging) && PlaceOf(m, eq, diverging, c)
    ensures c < |diverging| ==> Spread(ms + [m], eq, keys, diverging)
    ensures c == |diverging| ==> Spread(ms + [m], eq, if m.htrace in keys then keys else keys + [m.htrace],
                                        diverging + [m.htrace])
  {
    DivergesMore(ms, m, eq);
    hide Diverges;
    if |ms| > 0 && 0 < c < |diverging| && m.htrace != ms[0].htrace {
      assert diverging[c] in keys;
    }
  }

  lemma MembersMore<C(!new), H(!new)>(ms: seq<Measurement<C, H>>, m: Measurement<C, H>, of: seq<nat>, c: nat, d: nat)
    requires |of| == |ms|
    ensures Members(ms + [m], of + [c], d) == if c == d then Members(ms, of, d) + [m] else Members(ms, of, d)
  {
    assert (ms + [m])[..|ms|] == ms && (of + [c])[..|of|] == of;
  }

  lemma NoMembers<C(!new), H(!new)>(ms: seq<Measurement<C, H>>, of: seq<nat>, c: nat)
    requires |of| == |ms| && forall k :: 0 <= k < |of| ==> of[k] < c
    ensures Members(ms, of, c) == []
  {}

  lemma PartitionedOn<C(!new), H(!new)>(ms: seq<Measurement<C, H>>, m: Measurement<C, H>, eq: Relation<H>, of: seq<nat>,
                                           groups: Groups<C, H>, c: nat)
    requires Reflexive(eq) && Partitioned(ms, eq, of, groups) && PlaceOf(m, eq, groups.keys, c)
    ensures c < |groups.keys| ==> IndexOf(groups.keys, groups.keys[c]) == c
    ensures c < |groups.keys| ==>
              Partitioned(ms + [m], eq, of + [c], groups.(values := groups.values[c := groups.values[c] + [m]]))
    ensures c == |groups.keys| ==> m.htrace !in groups.keys
    ensures c == |groups.keys| ==>
              Partitioned(ms + [m], eq, of + [c], Groups(groups.keys + [m.htrace], groups.values + [[m]]))
  {
    hide Members;
    forall d { MembersMore(ms, m, of, c, d); }
    if c == |groups.keys| { NoMembers(ms, of, c); }
  }

  /** Split measurements into hardware classes.  For a reflexive relation this is the greedy partition.
      For any relation, a second class appears exactly when some measurement differs from the first and
      is not equivalent to it. */
  method BuildHwClasses<C(!new), H(==,!new)>(ms: seq<Measurement<C, H>>, eq: Relation<H>)
    returns (groups: Groups<C, H>, ghost of: seq<nat>)
    ensures |groups.keys| == |groups.values|
    ensures |groups.keys| >= 2 <==> Diverges(ms, eq)
    ensures Reflexive(eq) ==> Partitioned(ms, eq, of, groups)
  {
    groups, of := Groups([], []), [];
    var diverging: seq<H> := [];
    for k := 0 to |ms|
      invariant |groups.keys| == |groups.values|
      invariant Spread(ms[..k], eq, groups.keys, diverging)
      invariant Reflexive(eq) ==> diverging == groups.keys && Partitioned(ms[..k], eq, of, groups)
    {
      var m := ms[k];
      var c := 0;
      while c < |diverging| && !eq(m.htrace, diverging[c])
        invariant 0 <= c <= |diverging|
        invariant forall d :: 0 <= d < c ==> !eq(m.htrace, diverging[d])
      {
        c := c + 1;
      }
      assert ms[..k + 1] == ms[..k] + [m];
      SpreadOn(ms[..k], m, eq, groups.keys, diverging, c);
      if Reflexive(eq) { PartitionedOn(ms[..k], m, eq, of, groups, c); }
      hide Partitioned, Spread, Reflexive;
      of := of + [c];
      if c < |diverging| {
        var key := diverging[c];
        groups := Assigned(groups, key, groups.values[IndexOf(groups.keys, key)] + [m]);
      } else {
        diverging := diverging + [m.htrace];
        groups := Assigned(groups, m.htrace, [m]);
      }
    }
    assert ms[..|ms|] == ms;
  }

  // ---------------------------------------------------------------------------------------------
  // Violations

  datatype Violation<C, H> = Violation(ctrace: C, measurements: seq<Measurement<C, H>>,
                                       hwClasses: seq<seq<Measurement<C, H>>>)

  /** The measurements whose hardware trace is neither empty nor corrupted. */
  function Usable<C, H>(ctraces: seq<C>, htraces: seq<H>, usable: H -> bool): (r: seq<Measurement<C, H>>)
    requires |ctraces| == |htraces|
    decreases |htraces|
  {
    if |htraces| == 0 then []
    else
      var n := |htraces| - 1;
      var rest := Usable(ctraces[..n], htraces[..n], usable);
      if usable(htraces[n]) then rest + [Measurement(n, ctraces[n], htraces[n])] else rest
  }

  ghost predicate MeasuredAt<C, H>(ctraces: seq<C>, htraces: seq<H>, usable: H -> bool, i: nat, m: Measurement<C, H>)
    requires |ctraces| == |htraces|
  {
    i < |htraces| && usable(htraces[i]) && m == Measurement(i, ctraces[i], htraces[i])
  }

  /** Exactly the inputs with a usable hardware trace, each once and in order, with their own traces. */
  lemma {:induction false} UsableExactly<C(!new), H(!new)>(ctraces: seq<C>, htraces: seq<H>, usable: H -> bool)
    requires |ctraces| == |htraces|
    ensures var ms := Usable(ctraces, htraces, usable);
            && (forall m :: m in ms <==> exists i: nat :: MeasuredAt(ctraces, htraces, usable, i, m))
            && (forall m :: m in ms ==> m.inputId < |htraces|)
            && forall j, k :: 0 <= j < k < |ms| ==> ms[j].inputId < ms[k].inputId
    decreases |htraces|
  {
    if |htraces| > 0 {
      var n := |htraces| - 1;
      UsableExactly(ctraces[..n], htraces[..n], usable);
      var ms, rest := Usable(ctraces, htraces, usable), Usable(ctraces[..n], htraces[..n], usable);
      forall m ensures m in ms <==> exists i: nat :: MeasuredAt(ctraces, htraces, usable, i, m) {
        assert m in ms <==> m in rest || MeasuredAt(ctraces, htraces, usable, n, m);
        forall i: nat | i < n
          ensures MeasuredAt(ctraces, htraces, usable, i, m) <==> MeasuredAt(ctraces[..n], htraces[..n], usable, i, m)
        {}
      }
    }
  }

  /** A contract class is reported when a measurement in it diverges from its first one. */
  ghost predicate Reported<C(!new), H(!new)>(ms: seq<Measurement<C, H>>, eq: Relation<H>, c: C) {
    Diverges(WithCtrace(ms, c), eq)
  }

  /** Two measurements share the contract trace and are not equivalent. */
  ghost predicate Counterexample<C(!new), H(!new)>(ms: seq<Measurement<C, H>>, eq: Relation<H>, c: C) {
    exists a, b :: a in ms && b in ms && a.ctrace == c == b.ctrace && !eq(a.htrace, b.htrace)
  }

  ghost predicate AllOf<C(!new), H(!new)>(ms: seq<Measurement<C, H>>, kind: H -> bool) {
    forall m :: m in ms ==> kind(m.htrace)
  }

  /** For an equivalence relation, a contract trace is reported exactly when it has a counterexample. */
  lemma ReportedIffCounterexample<C(!new), H(!new)>(ms: seq<Measurement<C, H>>, eq: Relation<H>, c: C, kind: H -> bool)
    requires EquivalenceOn(eq, kind) && AllOf(ms, kind)
    ensures Reported(ms, eq, c) <==> Counterexample(ms, eq, c)
  {
    var class_ := WithCtrace(ms, c);
    if Counterexample(ms, eq, c) {
      var a, b :| a in ms && b in ms && a.ctrace == c == b.ctrace && !eq(a.htrace, b.htrace);
      assert a in class_ && b in class_ && class_[0] in class_;
      var first := class_[0].htrace;
      assert !(eq(a.htrace, first) && eq(first, b.htrace));
    }
    if Diverges(class_, eq) {
      var m :| m in class_ && !eq(m.htrace, class_[0].htrace);
      assert class_[0] in class_;
    }
  }

  /** Reports and counterexamples coincide for every contract trace of every list of measurements. */
  ghost predicate DetectsExactly<H(!new)>(eq: Relation<H>, kind: H -> bool) {
    forall ms: seq<Measurement<nat, H>>, c: nat ::
      AllOf(ms, kind) ==> (Reported(ms, eq, c) <==> Counterexample(ms, eq, c))
  }

  /** A first measurement that is equivalent to two others hides that these two are not equivalent. */
  lemma CoveredByFirst<H(!new)>(eq: Relation<H>, first: H, left: H, right: H)
    requires eq(first, first) && eq(left, first) && eq(right, first) && !eq(left, right)
    ensures var ms: seq<Measurement<nat, H>> :=
              [Measurement(0, 0, first), Measurement(1, 0, left), Measurement(2, 0, right)];
            Counterexample(ms, eq, 0) && !Reported(ms, eq, 0)
  {
    var ms: seq<Measurement<nat, H>> := [Measurement(0, 0, first), Measurement(1, 0, left), Measurement(2, 0, right)];
    assert ms[1] in ms && ms[2] in ms;
    assert ms[..2][..1] == [ms[0]] && ms[..1][..0] == [];
    assert WithCtrace(ms[..1], 0) == ms[..1];
    assert WithCtrace(ms[..2], 0) == ms[..2];
    assert WithCtrace(ms, 0) == ms;
  }

  /** Detection is exact if and only if the reflexive relation is an equivalence relation. */
  lemma ExactIffEquivalence<H(!new)>(eq: Relation<H>, kind: H -> bool)
    requires forall a :: kind(a) ==> eq(a, a)
    ensures DetectsExactly(eq, kind) <==> EquivalenceOn(eq, kind)
  {
    if EquivalenceOn(eq, kind) {
      forall ms: seq<Measurement<nat, H>>, c: nat | AllOf(ms, kind)
        ensures Reported(ms, eq, c) <==> Counterexample(ms, eq, c)
      {
        ReportedIffCounterexample(ms, eq, c, kind);
      }
    }
    if DetectsExactly(eq, kind) {
      hide Reported, Counterexample;
      forall a, b | kind(a) && kind(b) && eq(a, b) ensures eq(b, a) {
        if !eq(b, a) { MissedByFirst(eq, kind, b, b, a); }
      }
      forall a, b, c | kind(a) && kind(b) && kind(c) && eq(a, b) && eq(b, c) ensures eq(a, c) {
        if !eq(a, c) { MissedByFirst(eq, kind, b, a, c); }
      }
    }
  }

  lemma MissedByFirst<H(!new)>(eq: Relation<H>, kind: H -> bool, first: H, left: H, right: H)
    requires kind(first) && kind(left) && kind(right)
    requires eq(first, first) && eq(left, first) && eq(right, first) && !eq(left, right)
    ensures !DetectsExactly(eq, kind)
  {
    CoveredByFirst(eq, first, left, right);
    var ms: seq<Measurement<nat, H>> := [Measurement(0, 0, first), Measurement(1, 0, left), Measurement(2, 0, right)];
    hide Reported, Counterexample;
    assert AllOf(ms, kind);
  }

  /** For a relation that is only reflexive, a contract trace is reported exactly when some measurement
      is not equivalent to the first one. */
  lemma ReportedIffUnlikeFirst<C(!new), H(!new)>(ms: seq<Measurement<C, H>>, eq: Relation<H>, c: C)
    requires Reflexive(eq)
    ensures Reported(ms, eq, c) <==>
              var class_ := WithCtrace(ms, c);
              exists m :: m in class_ && !eq(m.htrace, class_[0].htrace)
  {}

  /** The hardware classes of a violation are the greedy partition of its measurements. */
  ghost predicate SplitGreedily<C(!new), H(!new)>(v: Violation<C, H>, eq: Relation<H>) {
    exists of, reps :: Partitioned(v.measurements, eq, of, Groups(reps, v.hwClasses))
  }

  /** The common algorithm of the analysers that work on equivalence classes. */
  method FilterViolations<C(==,!new), H(==,!new)>(ctraces: seq<C>, htraces: seq<H>, usable: H -> bool, eq: Relation<H>)
    returns (violations: seq<Violation<C, H>>)
    requires |ctraces| == |htraces|
    ensures forall i, j :: 0 <= i < j < |violations| ==> violations[i].ctrace != violations[j].ctrace
    ensures forall c :: (exists v :: v in violations && v.ctrace == c) <==>
              Reported(Usable(ctraces, htraces, usable), eq, c)
    ensures forall v :: v in violations ==> v.measurements == WithCtrace(Usable(ctraces, htraces, usable), v.ctrace)
    ensures Reflexive(eq) ==> forall v :: v in violations ==> SplitGreedily(v, eq)
  {
    var ms := [];
    for i := 0 to |htraces|
      invariant ms == Usable(ctraces[..i], htraces[..i], usable)
    {
      assert ctraces[..i + 1][..i] == ctraces[..i] && htraces[..i + 1][..i] == htraces[..i];
      if usable(htraces[i]) { ms := ms + [Measurement(i, ctraces[i], htraces[i])]; }
    }
    assert ctraces[..|ctraces|] == ctraces && htraces[..|htraces|] == htraces;
    hide Usable, Diverges, Partitioned, Reflexive;
    var keys, classes := BuildContractClasses(ms);
    violations := [];
    for i := 0 to |classes|
      invariant forall a, b :: 0 <= a < b < |violations| ==> violations[a].ctrace != violations[b].ctrace
      invariant forall v :: v in violations ==>
                  v.ctrace in keys[..i] && Reported(ms, eq, v.ctrace) && v.measurements == WithCtrace(ms, v.ctrace)
      invariant Reflexive(eq) ==> forall v :: v in violations ==> SplitGreedily(v, eq)
      invariant forall j :: 0 <= j < i && Reported(ms, eq, keys[j]) ==>
                  exists v :: v in violations && v.ctrace == keys[j]
    {
      if |classes[i]| >= 2 {
        var groups, of := BuildHwClasses(classes[i], eq);
        assert Reflexive(eq) ==> Partitioned(classes[i], eq, of, Groups(groups.keys, groups.values));
        if |groups.keys| >= 2 {
          violations := violations + [Violation(keys[i], classes[i], groups.values)];
          assert violations[|violations| - 1] in violations;
        }
      } else {
        SingleNeverDiverges(classes[i], eq);
      }
    }
    forall c | Reported(ms, eq, c) ensures c in keys { DivergingNotEmpty(ms, eq, c); }
  }

  lemma SingleNeverDiverges<C(!new), H(!new)>(ms: seq<Measurement<C, H>>, eq: Relation<H>)
    requires |ms| == 1
    ensures !Diverges(ms, eq)
  {}

  lemma DivergingNotEmpty<C(!new), H(!new)>(ms: seq<Measurement<C, H>>, eq: Relation<H>, c: C)
    requires Reported(ms, eq, c)
    ensures exists m :: m in ms && m.ctrace == c
  {}

  // ---------------------------------------------------------------------------------------------
  // Merged bitmaps

  type Trace = bv64

  function Count(raw: seq<Trace>, t: Trace): (n: nat)
    ensures n <= |raw|
  {
    if |raw| == 0 then 0
    else Count(raw[..|raw| - 1], t) + if raw[|raw| - 1] == t then 1 else 0
  }

  function Union(a: Trace, b: Trace): Trace {
    a | b
  }

  /** The union of the samples that occur often enough. */
  function Merge(samples: seq<Trace>, all: seq<Trace>, threshold: real): Trace {
    if |samples| == 0 then 0
    else
      var rest := Merge(samples[..|samples| - 1], all, threshold);
      var t := samples[|samples| - 1];
      if Count(all, t) as real >= threshold then Union(rest, t) else rest
  }

  /** Counting is by position. */
  lemma {:induction false} CountIsCardinality(raw: seq<Trace>, t: Trace)
    ensures Count(raw, t) == |set i | 0 <= i < |raw| && raw[i] == t|
  {
    if |raw| > 0 {
      var n, before := |raw| - 1, raw[..|raw| - 1];
      CountIsCardinality(before, t);
      var s, r := set i | 0 <= i < n && before[i] == t, set i | 0 <= i < |raw| && raw[i] == t;
      forall i | i in r ensures i in s + {n} {}
      forall i | i in s ensures i in r {}
      if raw[n] == t { assert r == s + {n}; } else { assert r == s; }
    }
  }

  function Masked(t: Trace, mask: Trace): Trace {
    t & mask
  }

  /** A trace has some bit of a mask. */
  predicate Has(t: Trace, mask: Trace) {
    Masked(t, mask) != 0
  }

  lemma Distributes(a: Trace, b: Trace, mask: Trace)
    ensures (a | b) & mask == (a & mask) | (b & mask)
  {}

  lemma IsMasked(t: Trace, mask: Trace)
    ensures Masked(t, mask) == t & mask
  {}

  lemma IsUnion(a: Trace, b: Trace)
    ensures Union(a, b) == a | b
  {}

  lemma UnionMasked(a: Trace, b: Trace, mask: Trace)
    ensures Masked(Union(a, b), mask) == Union(Masked(a, mask), Masked(b, mask))
  {
    hide Masked, Union;
    IsUnion(a, b);
    IsMasked(a, mask);
    IsMasked(b, mask);
    IsMasked(a | b, mask);
    IsUnion(a & mask, b & mask);
    Distributes(a, b, mask);
  }

  lemma NoBits(a: Trace, b: Trace)
    ensures Union(a, b) == 0 <==> a == 0 && b == 0
  {}

  lemma UnionHas(a: Trace, b: Trace, mask: Trace)
    ensures Has(Union(a, b), mask) <==> Has(a, mask) || Has(b, mask)
  {
    hide Union, Masked;
    UnionMasked(a, b, mask);
    NoBits(Masked(a, mask), Masked(b, mask));
  }

  /** A bit is in the merged bitmap if and only if some sample has it that occurs often enough. */
  lemma {:induction false} MergedBits(samples: seq<Trace>, all: seq<Trace>, threshold: real, mask: Trace)
    ensures Has(Merge(samples, all, threshold), mask) <==>
              exists i :: 0 <= i < |samples| && Count(all, samples[i]) as real >= threshold && Has(samples[i], mask)
    decreases |samples|
  {
    hide Union, Count;
    if |samples| == 0 {
      assert !Has(0, mask);
    } else {
      hide Has;
      var n, before := |samples| - 1, samples[..|samples| - 1];
      MergedBits(before, all, threshold, mask);
      UnionHas(Merge(before, all, threshold), samples[n], mask);
      forall i | 0 <= i < n ensures before[i] == samples[i] {}
    }
  }

  /** A bit is in the bitmap of a hardware trace if and only if some of its samples has it that is no outlier. */
  lemma BitmapBits(raw: seq<Trace>, outliers: real, mask: Trace)
    ensures Has(Bitmap(raw, outliers), mask) <==>
              exists i :: 0 <= i < |raw| && Count(raw, raw[i]) as real >= outliers * (|raw| as real) &&
                          Has(raw[i], mask)
  {
    hide Count, Merge, Has;
    MergedBits(raw, raw, Threshold(outliers, |raw|), mask);
  }

  function Threshold(outliers: real, samples: nat): real {
    outliers * (samples as real)
  }

  function Bitmap(raw: seq<Trace>, outliers: real): Trace {
    Merge(raw, raw, Threshold(outliers, |raw|))
  }

  predicate Subset(a: Trace, b: Trace) {
    a & !b == 0
  }

  /** Equal bitmaps, or also one inside the other. */
  predicate BitmapsAgree(a: Trace, b: Trace, subsetsViolate: bool) {
    if subsetsViolate then a == b else Subset(a, b) || Subset(b, a)
  }

  predicate BitmapsEquivalent(h1: seq<Trace>, h2: seq<Trace>, outliers: real, subsetsViolate: bool) {
    BitmapsAgree(Bitmap(h1, outliers), Bitmap(h2, outliers), subsetsViolate)
  }

  function ComparesBitmaps(outliers: real, subsetsViolate: bool): Relation<seq<Trace>> {
    (a, b) => BitmapsEquivalent(a, b, outliers, subsetsViolate)
  }

  /** The comparison of merged bitmaps, with the cache of bitmaps it fills. */
  class MergedBitmapAnalyser {
    const outliers: real
    const subsetsViolate: bool
    var bitmapCache: map<seq<Trace>, Trace>

    ghost predicate Valid()
      reads this
    {
      forall raw :: raw in bitmapCache ==> bitmapCache[raw] == Bitmap(raw, outliers)
    }

    constructor (outliers: real, subsetsViolate: bool)
      ensures Valid() && this.outliers == outliers && this.subsetsViolate == subsetsViolate
    {
      this.outliers, this.subsetsViolate, bitmapCache := outliers, subsetsViolate, map[];
    }

    method BitmapOf(raw: seq<Trace>) returns (bitmap: Trace)
      requires Valid()
      modifies this
      ensures Valid() && bitmap == Bitmap(raw, outliers)
    {
      hide Bitmap;
      if raw in bitmapCache { return bitmapCache[raw]; }
      bitmap := MergeAll(raw, outliers);
      bitmapCache := bitmapCache[raw := bitmap];
    }

    static method MergeAll(raw: seq<Trace>, outliers: real) returns (bitmap: Trace)
      ensures bitmap == Bitmap(raw, outliers)
    {
      hide Count, Threshold, Union;
      var threshold := Threshold(outliers, |raw|);
      bitmap := 0;
      for i := 0 to |raw|
        invariant bitmap == Merge(raw[..i], raw, threshold)
      {
        assert raw[..i + 1][..i] == raw[..i];
        if Count(raw, raw[i]) as real >= threshold { bitmap := Union(bitmap, raw[i]); }
      }
      assert raw[..|raw|] == raw;
    }

    /** The cache never changes the answer. */
    method HtracesAreEquivalent(h1: seq<Trace>, h2: seq<Trace>) returns (equivalent: bool)
      requires Valid() && |h1| == |h2|
      modifies this
      ensures Valid() && equivalent == BitmapsEquivalent(h1, h2, outliers, subsetsViolate)
    {
      hide Bitmap, BitmapsAgree;
      var a := BitmapOf(h1);
      var b := BitmapOf(h2);
      equivalent := BitmapsAgree(a, b, subsetsViolate);
    }
  }

  /** Merged bitmaps are always compared reflexively, so reports follow the first measurement of a class. */
  lemma BitmapsReflexive(outliers: real, subsetsViolate: bool)
    ensures Reflexive(ComparesBitmaps(outliers, subsetsViolate))
  {
    forall a: Trace ensures Subset(a, a) {}
  }

  /** With a threshold above one, every sample is an outlier. */
  lemma {:induction false} NothingMerged(samples: seq<Trace>, all: seq<Trace>, outliers: real)
    requires |all| > 0 && outliers > 1.0
    ensures Merge(samples, all, Threshold(outliers, |all|)) == 0
    decreases |samples|
  {
    if |samples| > 0 {
      NothingMerged(samples[..|samples| - 1], all, outliers);
      AboveAll(outliers, |all|);
      hide Threshold;
    }
  }

  lemma AboveAll(outliers: real, n: nat)
    requires n > 0 && outliers > 1.0
    ensures Threshold(outliers, n) > n as real
  {}

  lemma EmptyBitmaps(raw: seq<Trace>, outliers: real)
    requires outliers > 1.0
    ensures Bitmap(raw, outliers) == 0
  {
    if |raw| > 0 { NothingMerged(raw, raw, outliers); }
  }

  /** `n` equal samples. */
  function Constant(t: Trace, n: nat): (raw: seq<Trace>)
    ensures |raw| == n
  {
    seq(n, _ => t)
  }

  lemma {:induction false} ConstantCount(t: Trace, n: nat)
    ensures Count(Constant(t, n), t) == n
  {
    if n > 0 {
      ConstantCount(t, n - 1);
      assert Constant(t, n)[..n - 1] == Constant(t, n - 1);
    }
  }

  lemma OrSelf(t: Trace)
    ensures Union(0, t) == t && Union(t, t) == t
  {}

  lemma {:induction false} ConstantMerged(t: Trace, k: nat, all: seq<Trace>, threshold: real)
    requires Count(all, t) as real >= threshold
    ensures Merge(Constant(t, k), all, threshold) == if k == 0 then 0 else t
  {
    hide Count, Union;
    if k > 0 {
      ConstantMerged(t, k - 1, all, threshold);
      OrSelf(t);
      assert Constant(t, k)[..k - 1] == Constant(t, k - 1);
    }
  }

  lemma NotAboveAll(outliers: real, n: nat)
    requires outliers <= 1.0
    ensures Threshold(outliers, n) <= n as real
  {}

  /** With a threshold of at most one, equal samples are kept. */
  lemma ConstantBitmap(t: Trace, n: nat, outliers: real)
    requires n > 0 && outliers <= 1.0
    ensures Bitmap(Constant(t, n), outliers) == t
  {
    ConstantCount(t, n);
    NotAboveAll(outliers, n);
    hide Threshold, Count;
    ConstantMerged(t, n, Constant(t, n), Threshold(outliers, n));
  }

  /** Sample 3 covers samples 1 and 2, which do not cover each other. */
  lemma ThreeCoversOneAndTwo(n: nat, outliers: real)
    requires n > 0 && outliers <= 1.0
    ensures var eq := ComparesBitmaps(outliers, false);
            && eq(Constant(3, n), Constant(3, n))
            && eq(Constant(1, n), Constant(3, n)) && eq(Constant(2, n), Constant(3, n))
            && !eq(Constant(1, n), Constant(2, n))
  {
    ConstantBitmap(1, n, outliers);
    ConstantBitmap(2, n, outliers);
    ConstantBitmap(3, n, outliers);
    hide Bitmap, Constant;
  }

  function OfSize(n: nat): seq<Trace> -> bool {
    raw => |raw| == n
  }

  /** Among traces of any number of samples, the comparison is an equivalence relation if and only if
      subsets count as violations or every sample is an outlier. */
  lemma BitmapsEquivalentExactly(n: nat, outliers: real, subsetsViolate: bool)
    requires n > 0
    ensures EquivalenceOn(ComparesBitmaps(outliers, subsetsViolate), OfSize(n)) <==> subsetsViolate || outliers > 1.0
  {
    var eq := ComparesBitmaps(outliers, subsetsViolate);
    if outliers > 1.0 {
      forall a, b ensures eq(a, b) {
        EmptyBitmaps(a, outliers);
        EmptyBitmaps(b, outliers);
        assert Subset(0, 0);
      }
    } else if !subsetsViolate {
      ThreeCoversOneAndTwo(n, outliers);
      hide Constant, BitmapsEquivalent;
      assert OfSize(n)(Constant(1, n)) && OfSize(n)(Constant(2, n)) && OfSize(n)(Constant(3, n));
    }
    hide Bitmap, Subset;
  }

  /** The same among traces of different numbers of samples. */
  lemma BitmapsEquivalence(outliers: real, subsetsViolate: bool)
    ensures Equivalence(ComparesBitmaps(outliers, subsetsViolate)) <==> subsetsViolate || outliers > 1.0
  {
    var eq := ComparesBitmaps(outliers, subsetsViolate);
    BitmapsReflexive(outliers, subsetsViolate);
    if outliers > 1.0 {
      forall a, b ensures eq(a, b) {
        EmptyBitmaps(a, outliers);
        EmptyBitmaps(b, outliers);
        assert Subset(0, 0);
      }
    } else if !subsetsViolate {
      ThreeCoversOneAndTwo(1, outliers);
      hide Constant, BitmapsEquivalent;
    }
    hide Bitmap, Subset;
  }

  /** The merged-bitmap analyser reports exactly the contract traces that have a counterexample if and only
      if subsets count as violations or every sample is an outlier, whatever the number of samples. */
  lemma BitmapDetectionExact(n: nat, outliers: real, subsetsViolate: bool)
    requires n > 0
    ensures DetectsExactly(ComparesBitmaps(outliers, subsetsViolate), OfSize(n)) <==> subsetsViolate || outliers > 1.0
  {
    BitmapsReflexive(outliers, subsetsViolate);
    hide DetectsExactly, EquivalenceOn, ComparesBitmaps;
    ExactIffEquivalence(ComparesBitmaps(outliers, subsetsViolate), OfSize(n));
    BitmapsEquivalentExactly(n, outliers, subsetsViolate);
  }

  /** A counterexample that stays unreported when subsets are tolerated, for any number of samples and any
      threshold that keeps some sample. */
  lemma CoveredCounterexampleMissed(n: nat, outliers: real)
    requires n > 0 && outliers <= 1.0
    ensures exists ms: seq<Measurement<nat, seq<Trace>>> ::
              AllOf(ms, OfSize(n)) && Counterexample(ms, ComparesBitmaps(outliers, false), 0)
              && !Reported(ms, ComparesBitmaps(outliers, false), 0)
  {
    ThreeCoversOneAndTwo(n, outliers);
    hide Constant, ComparesBitmaps, Reported, Counterexample;
    CoveredByFirst(ComparesBitmaps(outliers, false), Constant(3, n), Constant(1, n), Constant(2, n));
    var ms: seq<Measurement<nat, seq<Trace>>> :=
      [Measurement(0, 0, Constant(3, n)), Measurement(1, 0, Constant(1, n)), Measurement(2, 0, Constant(2, n))];
    assert AllOf(ms, OfSize(n));
  }
}
