/** Host page-table entries of the sandbox around a measurement: they are saved, modified for user
actors and for the faulty pages, and restored on every way out of the measurement loop.
*/
module PageTables {
  type Pte = bv64

  const N_UTIL_PAGES: nat := 9
  const N_DATA_PAGES: nat := 4
  const N_CODE_PAGES: nat := 3
  const FAULTY_PAGE_ID: nat := 2

  const USER_BIT: Pte := 0x4
  const MODIFIABLE_PTE_BITS: Pte := 0xF808_0000_0000_007B
  const VALID_HTRACE: bv64 := 0x8000_0000_0000_0000

  datatype Actor = Actor(user: bool, dataPermissions: Pte)

  // ---------------------------------------------------------------------------------------------
  // The sandbox pages: utility pages, then the data pages and the code pages of every actor

  function Pages(n: nat): nat {
    N_UTIL_PAGES + (N_DATA_PAGES + N_CODE_PAGES) * n
  }

  function DataPage(n: nat, actor: nat, i: nat): (page: nat)
    requires actor < n && i < N_DATA_PAGES
    ensures page < Pages(n)
  {
    N_UTIL_PAGES + N_DATA_PAGES * actor + i
  }

  function CodePage(n: nat, actor: nat, i: nat): (page: nat)
    requires actor < n && i < N_CODE_PAGES
    ensures page < Pages(n)
  {
    N_UTIL_PAGES + N_DATA_PAGES * n + N_CODE_PAGES * actor + i
  }

  const PAGE_SIZE: nat := 4096
  const ACTOR_DATA_SIZE: nat := N_DATA_PAGES * PAGE_SIZE
  const ACTOR_CODE_SIZE: nat := N_CODE_PAGES * PAGE_SIZE

  /** Virtual addresses of the sandbox: the data of the actors lies behind the utility area, their code
      elsewhere. */
  datatype Layout = Layout(util: nat, code: nat)
  {
    function Data(): nat {
      util + N_UTIL_PAGES * PAGE_SIZE
    }

    predicate Apart(n: nat) {
      code + n * ACTOR_CODE_SIZE <= util || Data() + n * ACTOR_DATA_SIZE <= code
    }

    /** The page that holds an address; the number of pages for an address outside the sandbox. */
    function PageAt(n: nat, va: nat): (page: nat)
      ensures page <= Pages(n)
    {
      if util <= va < Data() + n * ACTOR_DATA_SIZE then (va - util) / PAGE_SIZE
      else if code <= va < code + n * ACTOR_CODE_SIZE then N_UTIL_PAGES + N_DATA_PAGES * n + (va - code) / PAGE_SIZE
      else Pages(n)
    }

    function UtilAddress(n: nat, i: nat): (va: nat)
      requires i < N_UTIL_PAGES
      ensures PageAt(n, va) == i
    {
      util + i * PAGE_SIZE
    }

    function DataAddress(n: nat, actor: nat, i: nat): (va: nat)
      requires actor < n && i < N_DATA_PAGES
      ensures PageAt(n, va) == DataPage(n, actor, i)
    {
      Data() + actor * ACTOR_DATA_SIZE + i * PAGE_SIZE
    }

    function CodeAddress(n: nat, actor: nat, i: nat): (va: nat)
      requires actor < n && i < N_CODE_PAGES && Apart(n)
      ensures PageAt(n, va) == CodePage(n, actor, i)
    {
      code + actor * ACTOR_CODE_SIZE + i * PAGE_SIZE
    }
  }

  /** A page is a utility page or belongs to one actor. */
  function Owner(n: nat, page: nat): (actor: nat)
    requires N_UTIL_PAGES <= page < Pages(n)
    ensures actor < n
  {
    if page < N_UTIL_PAGES + N_DATA_PAGES * n then (page - N_UTIL_PAGES) / N_DATA_PAGES
    else (page - N_UTIL_PAGES - N_DATA_PAGES * n) / N_CODE_PAGES
  }

  /** The pages that a loop over actors has reached: all utility pages, `d` data pages, `c` code pages. */
  predicate Reached(n: nat, page: nat, d: nat, c: nat) {
    if page < N_UTIL_PAGES + N_DATA_PAGES * n then page < N_UTIL_PAGES + d
    else page < N_UTIL_PAGES + N_DATA_PAGES * n + c
  }

  /** What one execution of the test case reports; `ended` and `smiCount` are its measurement status. */
  datatype Result = Result(err: bool, measurement: Measurement, ended: bool, smiCount: nat)

  datatype Measurement = Measurement(htrace: bv64, pfc: seq<bv64>)

  // ---------------------------------------------------------------------------------------------
  // Permissions during a test case

  function FaultyPte(pte: Pte, permissions: Pte): Pte {
    (pte | (permissions & MODIFIABLE_PTE_BITS)) & (permissions | !MODIFIABLE_PTE_BITS)
  }

  /** The modifiable bits come from the permissions, all other bits stay. */
  lemma FaultyPteMasks(pte: Pte, permissions: Pte)
    ensures FaultyPte(pte, permissions) & MODIFIABLE_PTE_BITS == permissions & MODIFIABLE_PTE_BITS
    ensures FaultyPte(pte, permissions) & !MODIFIABLE_PTE_BITS == pte & !MODIFIABLE_PTE_BITS
  {}

  function UserPte(pte: Pte): Pte {
    pte | USER_BIT
  }

  /** The user bit is set, and all other bits stay. */
  lemma UserPteSetsUserBit(pte: Pte)
    ensures UserPte(pte) & USER_BIT == USER_BIT && USER_BIT != 0
    ensures UserPte(pte) & !USER_BIT == pte & !USER_BIT
  {}

  predicate ForUser(actors: seq<Actor>, page: nat)
    requires page < Pages(|actors|)
  {
    page < N_UTIL_PAGES || actors[Owner(|actors|, page)].user
  }

  predicate IsFaulty(n: nat, page: nat)
    requires page < Pages(n)
  {
    N_UTIL_PAGES <= page < N_UTIL_PAGES + N_DATA_PAGES * n && (page - N_UTIL_PAGES) % N_DATA_PAGES == FAULTY_PAGE_ID
  }

  /** Page tables with user access for the pages of user actors, when there are any. */
  function WithUserPages(actors: seq<Actor>, userActors: bool, ptes: seq<Pte>): (r: seq<Pte>)
    requires |ptes| == Pages(|actors|)
    ensures |r| == |ptes|
  {
    seq(|ptes|, page requires 0 <= page < |ptes| =>
      if userActors && ForUser(actors, page) then UserPte(ptes[page]) else ptes[page])
  }

  function WithFaultyPages(actors: seq<Actor>, ptes: seq<Pte>): (r: seq<Pte>)
    requires |ptes| == Pages(|actors|)
    ensures |r| == |ptes|
  {
    seq(|ptes|, page requires 0 <= page < |ptes| =>
      if IsFaulty(|actors|, page) then FaultyPte(ptes[page], actors[Owner(|actors|, page)].dataPermissions)
      else ptes[page])
  }

  lemma DataPageOwner(n: nat, actor: nat, i: nat)
    requires actor < n && i < N_DATA_PAGES
    ensures Owner(n, DataPage(n, actor, i)) == actor
    ensures IsFaulty(n, DataPage(n, actor, i)) <==> i == FAULTY_PAGE_ID
  {}

  lemma FaultyPageOf(n: nat, page: nat)
    requires page < Pages(n) && IsFaulty(n, page)
    ensures page == DataPage(n, Owner(n, page), FAULTY_PAGE_ID)
  {}

  /** An execution that ends the measurement loop: an error, or a corrupted measurement in a round that
      is neither a warm-up (a negative round) nor run in debug mode. */
  predicate Stops(r: Result, round: int, debug: bool) {
    r.err || (round >= 0 && !debug && Corrupted(r))
  }

  predicate Corrupted(r: Result) {
    !r.ended || r.smiCount != 0
  }

  /** The upper bit tells a valid hardware trace from a corrupted one. */
  function Marked(m: Measurement, debug: bool): Measurement {
    if debug then m else m.(htrace := m.htrace | VALID_HTRACE)
  }

  /** The entries under which every round executes. */
  function Permitted(actors: seq<Actor>, userActors: bool, ptes: seq<Pte>): (r: seq<Pte>)
    requires |ptes| == Pages(|actors|)
    ensures |r| == |ptes|
  {
    WithFaultyPages(actors, WithUserPages(actors, userActors, ptes))
  }

  /** The rounds from -warmups on ran under the entries `under` until round `stop`, or all of them did. */
  ghost predicate LoopEnds(execute: (int, seq<Pte>) -> Result, under: seq<Pte>, nInputs: nat, warmups: int, debug: bool,
                           err: bool, stop: int) {
    && -warmups <= stop <= nInputs
    && (forall i :: -warmups <= i < stop ==> !Stops(execute(i, under), i, debug))
    && (stop < nInputs ==> Stops(execute(stop, under), stop, debug))
    && err == (stop < nInputs && execute(stop, under).err)
  }

  /** Rounds before `stop` are recorded and marked, a corrupted one is recorded without mark, and later
      measurements are left as an earlier experiment wrote them. */
  ghost predicate Recorded(execute: (int, seq<Pte>) -> Result, under: seq<Pte>, nInputs: nat, debug: bool, err: bool,
                           stop: int,
                           before: seq<Measurement>, after: seq<Measurement>) {
    && |before| == |after| >= nInputs
    && forall k {:trigger after[k]} :: 0 <= k < |after| && (k > 0 || !err) ==>
         after[k] == if k < stop then Marked(execute(k, under).measurement, debug)
                     else if k == stop < nInputs && !err then execute(k, under).measurement
                     else before[k]
  }

  predicate IsMarked(m: Measurement) {
    m.htrace & VALID_HTRACE != 0
  }

  lemma MarkedIsMarked(m: Measurement)
    ensures IsMarked(Marked(m, false))
  {}

  /** The marks say which measurements are valid. */
  ghost predicate MarksRight(after: seq<Measurement>, nInputs: nat, stop: int) {
    nInputs <= |after| && forall k :: 0 <= k < nInputs ==> (IsMarked(after[k]) <==> k < stop)
  }

  /** The raw hardware trace of the round that ended the loop does not look marked by itself. */
  ghost predicate RawUnmarked(execute: (int, seq<Pte>) -> Result, under: seq<Pte>, nInputs: nat, stop: int) {
    stop < nInputs ==> !IsMarked(execute(stop, under).measurement)
  }

  /** The marks single out the valid measurements exactly when the raw trace of a corrupted one looks
      unmarked and the buffer held no mark of an earlier experiment behind it. */
  lemma MarksTellValid(execute: (int, seq<Pte>) -> Result, under: seq<Pte>, nInputs: nat, stop: int,
                       before: seq<Measurement>, after: seq<Measurement>)
    requires Recorded(execute, under, nInputs, false, false, stop, before, after) && 0 <= stop <= nInputs
    ensures MarksRight(after, nInputs, stop)
            <==> RawUnmarked(execute, under, nInputs, stop) && forall k :: stop < k < nInputs ==> !IsMarked(before[k])
  {
    forall k | 0 <= k < stop ensures IsMarked(after[k]) { MarkedIsMarked(execute(k, under).measurement); }
    forall k | stop < k < nInputs ensures after[k] == before[k] {}
    assert stop < nInputs ==> after[stop] == execute(stop, under).measurement;
    hide IsMarked;
  }

  /** An experiment without error that starts on the buffer `before` and ends with `after`. */
  ghost predicate Outcome(execute: (int, seq<Pte>) -> Result, under: seq<Pte>, nInputs: nat, stop: int,
                          before: seq<Measurement>, after: seq<Measurement>) {
    && LoopEnds(execute, under, nInputs, 0, false, false, stop)
    && Recorded(execute, under, nInputs, false, false, stop, before, after)
  }

  /** A test case whose every measurement is corrupted, with a zero hardware trace. */
  function AlwaysCorrupted(round: int, under: seq<Pte>): Result {
    Result(false, Measurement(0, []), false, 0)
  }

  lemma CorruptedAtOnce(nInputs: nat, before: seq<Measurement>)
    requires 0 < nInputs <= |before|
    ensures Outcome(AlwaysCorrupted, [], nInputs, 0, before, before[0 := Measurement(0, [])])
    ensures RawUnmarked(AlwaysCorrupted, [], nInputs, 0)
  {}

  /** Before an experiment: whatever happens in it, the marks will be right (as far as raw traces look
      unmarked) exactly when no entry of the buffer but the first is marked. */
  lemma MarksRightForEveryOutcome(nInputs: nat, before: seq<Measurement>)
    requires 0 < nInputs <= |before|
    ensures (forall execute: (int, seq<Pte>) -> Result, under: seq<Pte>, stop: int, after: seq<Measurement> ::
               Outcome(execute, under, nInputs, stop, before, after) && RawUnmarked(execute, under, nInputs, stop)
               ==> MarksRight(after, nInputs, stop))
            <==> forall k :: 0 < k < nInputs ==> !IsMarked(before[k])
  {
    CorruptedAtOnce(nInputs, before);
    MarksTellValid(AlwaysCorrupted, [], nInputs, 0, before, before[0 := Measurement(0, [])]);
    if forall k :: 0 < k < nInputs ==> !IsMarked(before[k]) {
      forall execute: (int, seq<Pte>) -> Result, under: seq<Pte>, stop: int, after: seq<Measurement>
        | Outcome(execute, under, nInputs, stop, before, after) && RawUnmarked(execute, under, nInputs, stop)
        ensures MarksRight(after, nInputs, stop)
      {
        MarksTellValid(execute, under, nInputs, stop, before, after);
      }
    }
    hide Recorded, IsMarked;
  }

  /** A mark of an earlier experiment survives: the first of two measurements is corrupted, and the second
      still looks valid. */
  lemma OldMarkSurvives()
    ensures exists before: seq<Measurement>, after: seq<Measurement> ::
              Outcome(AlwaysCorrupted, [], 2, 0, before, after) && !MarksRight(after, 2, 0)
  {
    var before := [Measurement(0, []), Measurement(VALID_HTRACE, [])];
    var after := before[0 := Measurement(0, [])];
    CorruptedAtOnce(2, before);
    assert IsMarked(after[1]);
    assert Outcome(AlwaysCorrupted, [], 2, 0, before, after) && !MarksRight(after, 2, 0);
  }

  class SandboxPages {
    var actors: seq<Actor>
    var userActors: bool
    var oldNActors: nat
    var layout: Layout
    /** The live entries, and whether an entry changed since its page was last invalidated. */
    var ptes: array<Pte>
    var stale: array<bool>
    var orig: array<Pte>
    var faulty: array<Pte>

    ghost predicate Valid()
      reads this
    {
      && ptes != orig && ptes != faulty && orig != faulty
      && stale as object !in {ptes as object, orig, faulty}
      && ptes.Length == stale.Length == Pages(|actors|)
      && orig.Length >= Pages(oldNActors) && faulty.Length >= oldNActors
      && layout.Apart(|actors|)
    }

    /** The buffers for the entries of one actor, and the pages of the sandbox. */
    constructor (actors: seq<Actor>, userActors: bool, layout: Layout, ptes: array<Pte>)
      requires ptes.Length == Pages(|actors|) && layout.Apart(|actors|)
      ensures Valid() && this.actors == actors && this.userActors == userActors && this.ptes == ptes && fresh(stale)
      ensures fresh(orig) && fresh(faulty) && forall page :: 0 <= page < stale.Length ==> !stale[page]
    {
      this.actors, this.userActors, this.layout, this.ptes := actors, userActors, layout, ptes;
      oldNActors := 1;
      stale := new bool[Pages(|actors|)](_ => false);
      orig := new Pte[Pages(1)](_ => 0);
      faulty := new Pte[1](_ => 0);
    }

    /** A new test case comes with other actors and possibly a newly allocated sandbox, whose entries are
        looked up again; the buffers stay as they are. */
    method CacheHostPteps(actors: seq<Actor>, userActors: bool, layout: Layout, ptes: array<Pte>, stale: array<bool>)
      requires Valid() && layout.Apart(|actors|)
      requires ptes.Length == stale.Length == Pages(|actors|)
      requires ptes != orig && ptes != faulty && stale as object !in {ptes as object, orig, faulty}
      modifies this`actors, this`userActors, this`layout, this`ptes, this`stale
      ensures Valid() && this.actors == actors && this.userActors == userActors && this.layout == layout
      ensures this.ptes == ptes && this.stale == stale
    {
      this.actors, this.userActors, this.layout := actors, userActors, layout;
      this.ptes, this.stale := ptes, stale;
    }

    /** The original entries are saved. */
    ghost predicate Stored()
      reads this
    {
      Valid() && oldNActors == |actors|
    }

    /** No page has become stale. */
    twostate predicate Invalidated()
      reads this, stale
    {
      stale == old(stale) && forall page :: 0 <= page < stale.Length ==> stale[page] ==> old(stale[page])
    }

    /** Change an entry; until its page is invalidated, the processor may use the old one. */
    method WritePte(page: nat, pte: Pte)
      requires Valid() && page < ptes.Length
      modifies ptes, stale
      ensures ptes[page] == pte && stale[page]
      ensures forall p :: 0 <= p < ptes.Length && p != page ==> ptes[p] == old(ptes[p]) && stale[p] == old(stale[p])
    {
      ptes[page] := pte;
      stale[page] := true;
    }

    /** Invalidate the page that holds an address. */
    method NativePageInvalidate(va: nat)
      requires Valid()
      modifies stale
      ensures forall p :: 0 <= p < stale.Length ==> stale[p] == (old(stale[p]) && p != layout.PageAt(|actors|, va))
    {
      var page := layout.PageAt(|actors|, va);
      if page < stale.Length {
        stale[page] := false;
      }
    }

    /** The buffers are reallocated when the number of actors has grown. */
    method ResizeBuffers()
      requires Valid()
      modifies this`orig, this`faulty, this`oldNActors
      ensures Stored() && oldNActors == |actors|
      ensures (orig == old(orig) || fresh(orig)) && (faulty == old(faulty) || fresh(faulty))
    {
      var n := |actors|;
      if n > oldNActors {
        orig := new Pte[Pages(n)](_ => 0);
        faulty := new Pte[n](_ => 0);
      }
      oldNActors := n;
    }

    /** Save the entries. */
    method SaveEntries()
      requires Stored()
      modifies orig
      ensures orig[..Pages(|actors|)] == ptes[..]
    {
      var n := |actors|;
      for i := 0 to N_UTIL_PAGES
        invariant forall page :: 0 <= page < i ==> orig[page] == ptes[page]
      {
        orig[i] := ptes[i];
      }
      for actor := 0 to n
        invariant forall page :: 0 <= page < Pages(n) ==>
                    Reached(n, page, N_DATA_PAGES * actor, N_CODE_PAGES * actor) ==> orig[page] == ptes[page]
      {
        var d, c := N_DATA_PAGES * actor, N_CODE_PAGES * actor;
        for i := 0 to N_DATA_PAGES
          invariant forall page :: 0 <= page < Pages(n) && Reached(n, page, d + i, c) ==> orig[page] == ptes[page]
        {
          orig[DataPage(n, actor, i)] := ptes[DataPage(n, actor, i)];
        }
        for i := 0 to N_CODE_PAGES
          invariant forall page :: 0 <= page < Pages(n) && Reached(n, page, d + N_DATA_PAGES, c + i) ==>
                      orig[page] == ptes[page]
        {
          orig[CodePage(n, actor, i)] := ptes[CodePage(n, actor, i)];
        }
      }
    }

    method StoreOrigHostPermissions()
      requires Valid()
      modifies this`orig, this`faulty, this`oldNActors, orig
      ensures Stored() && orig[..Pages(|actors|)] == ptes[..]
      ensures (orig == old(orig) || fresh(orig)) && (faulty == old(faulty) || fresh(faulty))
    {
      ResizeBuffers();
      SaveEntries();
    }

    /** Restore one entry, if it differs. */
    method RestorePte(page: nat, pte: Pte, va: nat)
      requires Valid() && page < ptes.Length && layout.PageAt(|actors|, va) == page
      modifies ptes, stale
      ensures Invalidated() && ptes[page] == pte
      ensures forall p :: 0 <= p < ptes.Length && p != page ==> ptes[p] == old(ptes[p])
    {
      if ptes[page] != pte {
        WritePte(page, pte);
        NativePageInvalidate(va);
      }
    }

    method RestoreOrigHostPermissions()
      requires Stored()
      modifies ptes, stale
      ensures ptes[..] == orig[..Pages(|actors|)]
      ensures Invalidated()
    {
      var n := |actors|;
      for i := 0 to N_UTIL_PAGES
        invariant Invalidated() && forall page :: 0 <= page < i ==> ptes[page] == orig[page]
      {
        RestorePte(i, orig[i], layout.UtilAddress(n, i));
      }
      for actor := 0 to n
        invariant Invalidated()
        invariant forall page :: 0 <= page < Pages(n) ==>
                    Reached(n, page, N_DATA_PAGES * actor, N_CODE_PAGES * actor) ==> ptes[page] == orig[page]
      {
        var d, c := N_DATA_PAGES * actor, N_CODE_PAGES * actor;
        for i := 0 to N_DATA_PAGES
          invariant Invalidated()
          invariant forall page :: 0 <= page < Pages(n) && Reached(n, page, d + i, c) ==> ptes[page] == orig[page]
        {
          var page := DataPage(n, actor, i);
          RestorePte(page, orig[page], layout.DataAddress(n, actor, i));
        }
        for i := 0 to N_CODE_PAGES
          invariant Invalidated()
          invariant forall page :: 0 <= page < Pages(n) && Reached(n, page, d + N_DATA_PAGES, c + i) ==>
                      ptes[page] == orig[page]
        {
          var page := CodePage(n, actor, i);
          RestorePte(page, orig[page], layout.CodeAddress(n, actor, i));
        }
      }
    }

    /** Give user actors access to the utility pages and to their own pages. */
    method SetUserPages()
      requires Valid()
      modifies ptes, stale
      ensures Invalidated()
      ensures ptes[..] == WithUserPages(actors, true, old(ptes[..]))
    {
      hide Owner, UserPte;
      var n := |actors|;
      for i := 0 to N_UTIL_PAGES
        invariant Invalidated()
        invariant forall page :: 0 <= page < Pages(n) ==>
                    ptes[page] == if page < i then UserPte(old(ptes[page])) else old(ptes[page])
      {
        WritePte(i, UserPte(ptes[i]));
        NativePageInvalidate(layout.UtilAddress(n, i));
      }
      for actor := 0 to n
        invariant Invalidated()
        invariant forall page :: 0 <= page < Pages(n) ==>
                    ptes[page] == if ForUser(actors, page) && (page < N_UTIL_PAGES || Owner(n, page) < actor)
                                  then UserPte(old(ptes[page])) else old(ptes[page])
      {
        SetUserPagesOf(actor);
      }
    }

    method SetUserPagesOf(actor: nat)
      requires Valid() && actor < |actors|
      modifies ptes, stale
      ensures Invalidated()
      ensures forall page {:trigger ptes[page]} :: 0 <= page < Pages(|actors|) ==>
                ptes[page] == if page >= N_UTIL_PAGES && Owner(|actors|, page) == actor && actors[actor].user
                              then UserPte(old(ptes[page])) else old(ptes[page])
    {
      var n := |actors|;
      if !actors[actor].user { return; }
      for i := 0 to N_DATA_PAGES
        invariant Invalidated()
        invariant forall page :: 0 <= page < Pages(n) ==>
                    ptes[page] == if DataPage(n, actor, 0) <= page < DataPage(n, actor, 0) + i
                                  then UserPte(old(ptes[page])) else old(ptes[page])
      {
        WritePte(DataPage(n, actor, i), UserPte(ptes[DataPage(n, actor, i)]));
        NativePageInvalidate(layout.DataAddress(n, actor, i));
      }
      for i := 0 to N_CODE_PAGES
        invariant Invalidated()
        invariant forall page :: 0 <= page < Pages(n) ==>
                    ptes[page] == if DataPage(n, actor, 0) <= page < DataPage(n, actor, 0) + N_DATA_PAGES
                                     || CodePage(n, actor, 0) <= page < CodePage(n, actor, 0) + i
                                  then UserPte(old(ptes[page])) else old(ptes[page])
      {
        WritePte(CodePage(n, actor, i), UserPte(ptes[CodePage(n, actor, i)]));
        NativePageInvalidate(layout.CodeAddress(n, actor, i));
      }
    }

    /** Set the permissions of every faulty page, saving the entry it had. */
    method SetFaultyPageHostPermissions()
      requires Stored()
      modifies ptes, stale, faulty
      ensures Invalidated()
      ensures ptes[..] == WithFaultyPages(actors, old(ptes[..]))
      ensures forall a {:trigger faulty[a]} :: 0 <= a < |actors| ==>
                faulty[a] == old(ptes[DataPage(|actors|, a, FAULTY_PAGE_ID)])
    {
      var n := |actors|;
      for actor := 0 to n
        invariant Invalidated()
        invariant forall page :: 0 <= page < Pages(n) ==>
                    ptes[page] == if IsFaulty(n, page) && Owner(n, page) < actor
                                  then FaultyPte(old(ptes[page]), actors[Owner(n, page)].dataPermissions)
                                  else old(ptes[page])
        invariant forall a {:trigger faulty[a]} :: 0 <= a < actor ==>
                    faulty[a] == old(ptes[DataPage(n, a, FAULTY_PAGE_ID)])
      {
        var page := DataPage(n, actor, FAULTY_PAGE_ID);
        DataPageOwner(n, actor, FAULTY_PAGE_ID);
        faulty[actor] := ptes[page];
        var pte := FaultyPte(ptes[page], actors[actor].dataPermissions);
        if pte != ptes[page] {
          WritePte(page, pte);
          NativePageInvalidate(layout.DataAddress(n, actor, FAULTY_PAGE_ID));
        }
        forall p | 0 <= p < Pages(n) && IsFaulty(n, p) && Owner(n, p) == actor ensures p == page { FaultyPageOf(n, p); }
      }
    }

    /** Write the saved entries of the faulty pages back, whether or not they are up to date. */
    method RestoreFaultyPageHostPermissions()
      requires Stored()
      modifies ptes, stale
      ensures Invalidated()
      ensures forall page :: 0 <= page < Pages(|actors|) ==>
                ptes[page] == if IsFaulty(|actors|, page) then faulty[Owner(|actors|, page)] else old(ptes[page])
    {
      var n := |actors|;
      for actor := 0 to n
        invariant Invalidated()
        invariant forall page :: 0 <= page < Pages(n) ==>
                    ptes[page] == if IsFaulty(n, page) && Owner(n, page) < actor then faulty[Owner(n, page)]
                                  else old(ptes[page])
      {
        var page := DataPage(n, actor, FAULTY_PAGE_ID);
        DataPageOwner(n, actor, FAULTY_PAGE_ID);
        WritePte(page, faulty[actor]);
        NativePageInvalidate(layout.DataAddress(n, actor, FAULTY_PAGE_ID));
        forall p | 0 <= p < Pages(n) && IsFaulty(n, p) && Owner(n, p) == actor ensures p == page { FaultyPageOf(n, p); }
      }
    }

    /** Save the entries and adjust them to the test case. */
    method SetSandboxPageTables()
      requires Valid()
      modifies this`orig, this`faulty, this`oldNActors, orig, ptes, stale
      ensures Stored() && orig[..Pages(|actors|)] == old(ptes[..])
      ensures Invalidated() && ptes[..] == WithUserPages(actors, userActors, old(ptes[..]))
      ensures (orig == old(orig) || fresh(orig)) && (faulty == old(faulty) || fresh(faulty))
    {
      StoreOrigHostPermissions();
      if userActors {
        SetUserPages();
      }
    }

    /** Whatever the entries are now, and however stale the saved faulty entries, this returns to the
        original ones. */
    method RecoverOrigState()
      requires Stored()
      modifies ptes, stale
      ensures ptes[..] == orig[..Pages(|actors|)]
      ensures Invalidated()
    {
      RestoreFaultyPageHostPermissions();
      RestoreOrigHostPermissions();
    }

    /** One execution of the test case, in the permissions it asks for. */
    method ExecuteOnce(execute: (int, seq<Pte>) -> Result, round: int) returns (result: Result)
      requires Stored()
      modifies ptes, stale, faulty
      ensures result == execute(round, WithFaultyPages(actors, old(ptes[..])))
      ensures ptes[..] == old(ptes[..]) && Invalidated()
    {
      SetFaultyPageHostPermissions();
      result := execute(round, ptes[..]);
      RestoreFaultyPageHostPermissions();
      forall page | 0 <= page < Pages(|actors|) ensures ptes[page] == old(ptes[page]) {
        if IsFaulty(|actors|, page) { FaultyPageOf(|actors|, page); }
      }
    }

    /** The measurement loop.  On every way out the entries are the original ones and no page is stale. */
    method RunExperiment(execute: (int, seq<Pte>) -> Result, measurements: array<Measurement>, nInputs: nat,
                         warmups: int,
                         debug: bool, environmentError: bool)
      returns (err: bool, ghost stop: int)
      requires Valid() && 0 < nInputs <= measurements.Length && warmups >= 0
      requires measurements as object !in {ptes as object, stale, orig, faulty}
      modifies this`orig, this`faulty, this`oldNActors, orig, faulty, ptes, stale, measurements
      ensures Valid() && ptes[..] == old(ptes[..]) && Invalidated()
      ensures if environmentError then err && measurements[1..] == old(measurements[1..])
              else
                && LoopEnds(execute, Permitted(actors, userActors, old(ptes[..])), nInputs, warmups, debug, err, stop)
                && Recorded(execute, Permitted(actors, userActors, old(ptes[..])), nInputs, debug, err, stop,
                            old(measurements[..]), measurements[..])
      ensures err ==> measurements[0].htrace == 0
    {
      err, stop := environmentError, -warmups;
      SetSandboxPageTables();
      if !err {
        err, stop := MeasureAll(execute, measurements, nInputs, warmups, debug);
      }
      if err {
        measurements[0] := measurements[0].(htrace := 0);
      }
      RecoverOrigState();
    }

    method MeasureAll(execute: (int, seq<Pte>) -> Result, measurements: array<Measurement>, nInputs: nat, warmups: int,
                      debug: bool)
      returns (err: bool, ghost stop: int)
      requires Stored() && 0 < nInputs <= measurements.Length && warmups >= 0
      requires measurements as object !in {ptes as object, stale, orig, faulty}
      modifies faulty, ptes, stale, measurements
      ensures ptes[..] == old(ptes[..]) && Invalidated()
      ensures LoopEnds(execute, WithFaultyPages(actors, old(ptes[..])), nInputs, warmups, debug, err, stop)
      ensures Recorded(execute, WithFaultyPages(actors, old(ptes[..])), nInputs, debug, err, stop,
                       old(measurements[..]), measurements[..])
    {
      ghost var under := WithFaultyPages(actors, ptes[..]);
      for i := -warmups to nInputs
        invariant ptes[..] == old(ptes[..]) && Invalidated()
        invariant forall j :: -warmups <= j < i ==> !Stops(execute(j, under), j, debug)
        invariant forall k {:trigger measurements[k]} :: 0 <= k < measurements.Length && (k > 0 || i > 0) ==>
                    measurements[k] == if k < i then Marked(execute(k, under).measurement, debug)
                                       else old(measurements[k])
        invariant i == 0 == warmups ==> measurements[0] == old(measurements[0])
      {
        var slot: nat := if i < 0 then 0 else i;
        var result := ExecuteOnce(execute, i);
        if result.err { return true, i; }
        measurements[slot] := result.measurement;
        if i >= 0 && !debug {
          if Corrupted(result) { return false, i; }
          measurements[slot] := measurements[slot].(htrace := measurements[slot].htrace | VALID_HTRACE);
        }
      }
      return false, nInputs;
    }
  }
}
