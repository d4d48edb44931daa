/** Loading a code section (x86): every macro placeholder becomes a relative jump to the macro's body
in a separate area, and the body ends with a relative jump back behind the placeholder.
*/
module MacroPatcher {
  import opened Common
  import opened Bytes

  const PLACEHOLDER: nat := 8
  const JMP_SIZE: nat := 5

  /** A symbol-table entry; `id` is zero for functions. */
  datatype Symbol = Symbol(owner: nat, offset: nat, id: nat, args: nat)

  // ---------------------------------------------------------------------------------------------
  // Relative jumps

  /** A 32-bit little-endian field. */
  function Encode32(v: int): (bs: seq<Byte>)
    ensures |bs| == 4
  {
    [v % 256, v / 256 % 256, v / 256 / 256 % 256, v / 256 / 256 / 256 % 256]
  }

  /** The signed value of a 32-bit little-endian field. */
  function Decode32(bs: seq<Byte>): int
    requires |bs| == 4
  {
    var u := (bs[0] as int) + 256 * (bs[1] as int) + 0x1_0000 * (bs[2] as int) + 0x100_0000 * (bs[3] as int);
    if u < INT32 then u else u - 2 * INT32
  }

  lemma Decode32Encode32(v: int)
    requires -INT32 <= v < INT32
    ensures Decode32(Encode32(v)) == v
  {}

  /** JMP rel32 and LFENCE; the displacement counts from the end of the jump. */
  function JmpAndFence(target: int): (bs: seq<Byte>)
    ensures |bs| == PLACEHOLDER
  {
    [0xe9] + Encode32(target - JMP_SIZE) + [0x0f, 0xae, 0xe8]
  }

  /** Where the processor continues after the instruction at an address: JMP rel32 adds its signed
      displacement to the address of the next instruction. */
  function JumpTarget(mem: seq<Byte>, a: nat): Option<int>
    requires a + JMP_SIZE <= |mem|
  {
    if mem[a] == 0xe9 then Some(a + JMP_SIZE + Decode32(mem[a + 1..a + 5])) else None
  }

  lemma JmpLands(mem: seq<Byte>, a: nat, target: int)
    requires a + PLACEHOLDER <= |mem| && mem[a..a + PLACEHOLDER] == JmpAndFence(target)
    requires -INT32 <= target - JMP_SIZE < INT32
    ensures JumpTarget(mem, a) == Some(a + target)
  {
    var bs := mem[a..a + PLACEHOLDER];
    assert mem[a] == bs[0];
    assert mem[a + 1..a + 5] == bs[1..5] by {
      forall k | 1 <= k < 5 ensures mem[a + k] == bs[k] {}
    }
    assert bs[1..5] == Encode32(target - JMP_SIZE);
    Decode32Encode32(target - JMP_SIZE);
  }

  // ---------------------------------------------------------------------------------------------
  // Macros of a section

  /** The entries from index `k` on that belong to the section without interruption. */
  function Listed(table: seq<Symbol>, k: nat, section: nat): (r: seq<Symbol>)
    ensures forall m :: m in r ==> m.owner == section
    decreases |table| - k
  {
    if k < |table| && table[k].owner == section then [table[k]] + Listed(table, k + 1, section) else []
  }

  /** How many entries the scan of a section expands, from a position on: it stops for good at the
      first entry that lies behind the scan or beyond the section. */
  function Expands(ms: seq<Symbol>, from: nat, size: nat): (n: nat)
    ensures n <= |ms|
    ensures forall i :: 0 <= i < n ==> from <= ms[i].offset < size
    decreases |ms|
  {
    if |ms| == 0 || ms[0].offset < from || ms[0].offset >= size then 0
    else 1 + Expands(ms[1..], ms[0].offset + PLACEHOLDER, size)
  }

  lemma ExpandsSkips(ms: seq<Symbol>, src: nat, size: nat)
    requires |ms| > 0 ==> ms[0].offset != src
    ensures Expands(ms, src, size) == Expands(ms, src + 1, size)
  {}

  lemma ExpandsOne(ms: seq<Symbol>, src: nat, size: nat)
    requires |ms| > 0 && ms[0].offset == src < size
    ensures Expands(ms, src, size) == 1 + Expands(ms[1..], src + PLACEHOLDER, size)
  {}

  lemma ExpandsNone(ms: seq<Symbol>, src: nat, size: nat)
    requires size <= src
    ensures Expands(ms, src, size) == 0
  {}

  /** Increasing, non-overlapping placeholders inside the section. */
  predicate Spaced(ms: seq<Symbol>, from: nat, size: nat) {
    && (forall i :: 0 <= i < |ms| ==> from <= ms[i].offset < size)
    && (forall i, j :: 0 <= i < j < |ms| ==> ms[i].offset + PLACEHOLDER <= ms[j].offset)
  }

  /** The scan expands every macro exactly when their placeholders are listed by increasing offset
      without overlap. */
  lemma {:induction false} ExpandsAllIffSpaced(ms: seq<Symbol>, from: nat, size: nat)
    ensures Expands(ms, from, size) == |ms| <==> Spaced(ms, from, size)
    decreases |ms|
  {
    if |ms| > 0 {
      var rest, next := ms[1..], ms[0].offset + PLACEHOLDER;
      ExpandsAllIffSpaced(rest, next, size);
      if Spaced(ms, from, size) {
        forall i, j | 0 <= i < j < |rest| ensures rest[i].offset + PLACEHOLDER <= rest[j].offset {
          assert ms[i + 1] == rest[i] && ms[j + 1] == rest[j];
        }
      }
      if from <= ms[0].offset < size && Spaced(rest, next, size) {
        forall i, j | 0 <= i < j < |ms| ensures ms[i].offset + PLACEHOLDER <= ms[j].offset {
          assert ms[j] == rest[j - 1];
          if i > 0 { assert ms[i] == rest[i - 1]; }
        }
      }
    }
  }

  /** The index of the first macro of a section; the length of the table when there is none. */
  function FirstMacro(table: seq<Symbol>, k: nat, section: nat): (r: nat)
    requires k <= |table|
    ensures k <= r <= |table|
    decreases |table| - k
  {
    if k == |table| || (table[k].owner == section && table[k].id != 0) then k else FirstMacro(table, k + 1, section)
  }

  function SectionMacros(table: seq<Symbol>, section: nat): seq<Symbol> {
    Listed(table, FirstMacro(table, 0, section), section)
  }

  /** A macro, and not a function entry, of a section. */
  predicate MacroOf(s: Symbol, section: nat) {
    s.owner == section && s.id != 0
  }

  /** The first macro is one, unless there is none. */
  lemma {:induction false} FirstMacroIsFirst(table: seq<Symbol>, k: nat, section: nat)
    requires k <= |table|
    ensures var first := FirstMacro(table, k, section);
            && (first < |table| ==> MacroOf(table[first], section))
            && forall j :: k <= j < first ==> !MacroOf(table[j], section)
    decreases |table| - k
  {
    if k < |table| && !MacroOf(table[k], section) { FirstMacroIsFirst(table, k + 1, section); }
  }

  /** The macros of a section are listed from the first one on, up to the next entry of another section. */
  lemma {:induction false} ListedToTheEnd(table: seq<Symbol>, k: nat, section: nat)
    requires k <= |table|
    ensures var end := k + |Listed(table, k, section)|;
            && end <= |table| && Listed(table, k, section) == table[k..end]
            && (end < |table| ==> table[end].owner != section)
    decreases |table| - k
  {
    if k < |table| && table[k].owner == section { ListedToTheEnd(table, k + 1, section); }
  }

  method GetSectionMacrosStart(table: seq<Symbol>, section: nat) returns (k: nat)
    requires |table| > 0
    ensures k == FirstMacro(table, 0, section)
  {
    k := 0;
    while table[k].owner != section || table[k].id == 0
      invariant 0 <= k < |table| && FirstMacro(table, 0, section) == FirstMacro(table, k, section)
      decreases |table| - k
    {
      k := k + 1;
      if k >= |table| { return; }
    }
  }

  // ---------------------------------------------------------------------------------------------
  // Expansion

  /** The expanded macro areas: a body starts where the one before has jumped back. */
  function BodyStart(bodies: seq<seq<Byte>>, i: nat): nat
    requires i <= |bodies|
  {
    if i == 0 then 0 else BodyStart(bodies, i - 1) + |bodies[i - 1]| + PLACEHOLDER
  }

  /** A placeholder at `code` is linked with the body at `at`. */
  ghost predicate Linked(mem: seq<Byte>, code: nat, at: nat, body: seq<Byte>) {
    && code + PLACEHOLDER <= |mem| && at + |body| + PLACEHOLDER <= |mem|
    && mem[code..code + PLACEHOLDER] == JmpAndFence(at - code)
    && mem[at..at + |body|] == body
    && mem[at + |body|..at + |body| + PLACEHOLDER] == JmpAndFence(code + PLACEHOLDER - (at + |body|))
  }

  /** Control flow through a linked macro: from the placeholder to the body, and from the end of the
      body to the code behind the placeholder. */
  lemma LinkedFlow(mem: seq<Byte>, code: nat, at: nat, body: seq<Byte>)
    requires Linked(mem, code, at, body) && |mem| <= INT32 - JMP_SIZE
    ensures JumpTarget(mem, code) == Some(at)
    ensures JumpTarget(mem, at + |body|) == Some(code + PLACEHOLDER)
  {
    JmpLands(mem, code, at - code);
    JmpLands(mem, at + |body|, code + PLACEHOLDER - (at + |body|));
  }

  /** Only the bytes of the two given ranges may differ. */
  ghost predicate SameOutside(before: seq<Byte>, after: seq<Byte>, d: int, d': int, m: int, m': int) {
    |before| == |after| && forall x :: 0 <= x < |after| && !(d <= x < d') && !(m <= x < m') ==> after[x] == before[x]
  }

  method CopyBytes(mem: array<Byte>, at: nat, bytes: seq<Byte>)
    requires at + |bytes| <= mem.Length
    modifies mem
    ensures mem[at..at + |bytes|] == bytes && SameOutside(old(mem[..]), mem[..], at, at + |bytes|, 0, 0)
  {
    for i := 0 to |bytes|
      invariant forall x :: 0 <= x < mem.Length ==> mem[x] == if at <= x < at + i then bytes[x - at] else old(mem[x])
    {
      mem[at + i] := bytes[i];
    }
  }

  /** The known macros, and the code that a macro expands to.  It may depend on where it is placed: a
      switch to another actor ends in a jump relative to its own address. */
  datatype Bodies = Bodies(known: Symbol -> bool, body: (Symbol, nat) -> seq<Byte>)

  /** Link one placeholder with the body of its macro, expanded for its destination.  A symbol that is no
      known macro is an error and changes nothing. */
  method ExpandMacro(mem: array<Byte>, m: Symbol, describe: Bodies, codeDest: nat, macroDest: nat)
    returns (err: bool, size: nat)
    requires codeDest + PLACEHOLDER <= macroDest
    requires macroDest + |describe.body(m, macroDest)| + PLACEHOLDER <= mem.Length
    modifies mem
    ensures err <==> m.id == 0 || !describe.known(m)
    ensures err ==> mem[..] == old(mem[..])
    ensures !err ==>
              var body := describe.body(m, macroDest);
              && size == |body| + PLACEHOLDER && Linked(mem[..], codeDest, macroDest, body)
              && SameOutside(old(mem[..]), mem[..], codeDest, codeDest + PLACEHOLDER, macroDest, macroDest + size)
  {
    if m.id == 0 || !describe.known(m) { return true, 0; }
    CopyBytes(mem, codeDest, JmpAndFence(macroDest - codeDest));
    var body := describe.body(m, macroDest);
    CopyBytes(mem, macroDest, body);
    var end := macroDest + |body|;
    CopyBytes(mem, end, JmpAndFence(codeDest + PLACEHOLDER - end));
    return false, |body| + PLACEHOLDER;
  }

  lemma BodyStartNext(bodies: seq<seq<Byte>>, n: nat)
    requires n < |bodies|
    ensures BodyStart(bodies, n + 1) == BodyStart(bodies, n) + |bodies[n]| + PLACEHOLDER
  {}

  lemma BodyStartAtMost(bodies: seq<seq<Byte>>)
    ensures BodyStart(bodies, 0) == 0 <= BodyStart(bodies, |bodies|)
  {}

  /** The bodies of a list of macros, placed one after the other from an address on. */
  function BodiesOf(ms: seq<Symbol>, describe: Bodies, at: nat): (r: seq<seq<Byte>>)
    ensures |r| == |ms|
  {
    if |ms| == 0 then []
    else
      var body := describe.body(ms[0], at);
      [body] + BodiesOf(ms[1..], describe, at + |body| + PLACEHOLDER)
  }

  lemma {:induction false} BodyStartBehind(body: seq<Byte>, bodies: seq<seq<Byte>>, i: nat)
    requires i <= |bodies|
    ensures BodyStart([body] + bodies, i + 1) == |body| + PLACEHOLDER + BodyStart(bodies, i)
  {
    if i > 0 { BodyStartBehind(body, bodies, i - 1); }
  }

  /** Every body is the expansion of its macro for the place where it lies. */
  lemma {:induction false} BodyAtItsPlace(ms: seq<Symbol>, describe: Bodies, at: nat, i: nat)
    requires i < |ms|
    ensures var bodies := BodiesOf(ms, describe, at); bodies[i] == describe.body(ms[i], at + BodyStart(bodies, i))
    decreases |ms|
  {
    if i > 0 {
      var body := describe.body(ms[0], at);
      BodyAtItsPlace(ms[1..], describe, at + |body| + PLACEHOLDER, i - 1);
      BodyStartBehind(body, BodiesOf(ms[1..], describe, at + |body| + PLACEHOLDER), i - 1);
    }
  }

  predicate InPlaceholder(ms: seq<Symbol>, n: nat, x: nat)
    requires n <= |ms|
  {
    exists i :: 0 <= i < n && ms[i].offset <= x < ms[i].offset + PLACEHOLDER
  }

  /** The first `n` macros are linked, each with the next free part of the macro area. */
  ghost predicate AllLinked(mem: seq<Byte>, dest: nat, macrosDest: nat, ms: seq<Symbol>, bodies: seq<seq<Byte>>, n: nat)
    requires n <= |ms| == |bodies|
  {
    forall i :: 0 <= i < n ==> Linked(mem, dest + ms[i].offset, macrosDest + BodyStart(bodies, i), bodies[i])
  }

  /** The first `size` bytes outside placeholders keep their values and offsets. */
  ghost predicate CodeKept(mem: seq<Byte>, dest: nat, section: seq<Byte>, ms: seq<Symbol>, n: nat, size: nat)
    requires n <= |ms| && size <= |section| && dest + size <= |mem|
  {
    forall x :: 0 <= x < size && !InPlaceholder(ms, n, x) ==> mem[dest + x] == section[x]
  }

  ghost predicate SameOn(before: seq<Byte>, after: seq<Byte>, from: int, to: int) {
    |before| == |after| && forall x :: 0 <= x < |after| && from <= x < to ==> after[x] == before[x]
  }

  lemma SameSlice(before: seq<Byte>, after: seq<Byte>, from: nat, to: nat, i: nat, j: nat)
    requires SameOn(before, after, from, to) && from <= i <= j <= to && j <= |before|
    ensures before[i..j] == after[i..j]
  {}

  lemma LinkedStays(before: seq<Byte>, after: seq<Byte>, code: nat, at: nat, body: seq<Byte>, d: nat, d': nat, m: nat,
                    m': nat)
    requires Linked(before, code, at, body) && SameOn(before, after, d, d') && SameOn(before, after, m, m')
    requires d <= code && code + PLACEHOLDER <= d' && m <= at && at + |body| + PLACEHOLDER <= m'
    ensures Linked(after, code, at, body)
  {
    SameSlice(before, after, d, d', code, code + PLACEHOLDER);
    SameSlice(before, after, m, m', at, at + |body|);
    SameSlice(before, after, m, m', at + |body|, at + |body| + PLACEHOLDER);
    hide SameOn;
  }

  lemma {:induction false} BodyStartGrows(bodies: seq<seq<Byte>>, i: nat, j: nat)
    requires i < j <= |bodies|
    ensures BodyStart(bodies, i) + |bodies[i]| + PLACEHOLDER <= BodyStart(bodies, j)
  {
    if i < j - 1 { BodyStartGrows(bodies, i, j - 1); }
  }

  /** Progress of the scan: `n` macros linked, `src` bytes of the section done, the macro area filled up
      to `macrosDest + used`, everything else untouched. */
  ghost predicate Scanned(before: seq<Byte>, mem: seq<Byte>, dest: nat, macrosDest: nat, section: seq<Byte>,
                          ms: seq<Symbol>, bodies: seq<seq<Byte>>, n: nat, src: nat) {
    && n <= |ms| == |bodies| && |mem| == |before| && dest + src <= macrosDest
    && macrosDest + BodyStart(bodies, n) <= |mem|
    && (forall i :: 0 <= i < n ==> ms[i].offset + PLACEHOLDER <= src)
    && AllLinked(mem, dest, macrosDest, ms, bodies, n)
    && (src <= |section| ==> CodeKept(mem, dest, section, ms, n, src))
    && SameOutside(before, mem, dest, dest + src, macrosDest, macrosDest + BodyStart(bodies, n))
  }

  /** Only two ranges change, and later ranges extend earlier ones. */
  lemma OutsideStays(a: seq<Byte>, b: seq<Byte>, c: seq<Byte>, d: int, d': int, d'': int, m: int, m': int, m'': int)
    requires SameOutside(a, b, d, d', m, m') && SameOutside(b, c, d', d'', m', m'') && d <= d' <= d'' && m <= m' <= m''
    ensures SameOutside(a, c, d, d'', m, m'')
  {}

  lemma LinksStay(mem: seq<Byte>, after: seq<Byte>, dest: nat, macrosDest: nat, ms: seq<Symbol>,
                                     bodies: seq<seq<Byte>>,
                  n: nat, src: nat)
    requires n <= |ms| == |bodies|
    requires forall i :: 0 <= i < n ==> ms[i].offset + PLACEHOLDER <= src
    requires AllLinked(mem, dest, macrosDest, ms, bodies, n)
    requires SameOn(mem, after, dest, dest + src) && SameOn(mem, after, macrosDest, macrosDest + BodyStart(bodies, n))
    ensures AllLinked(after, dest, macrosDest, ms, bodies, n)
  {
    hide Linked, SameOn, BodyStart;
    forall i | 0 <= i < n
      ensures Linked(after, dest + ms[i].offset, macrosDest + BodyStart(bodies, i), bodies[i])
    {
      BodyStartGrows(bodies, i, n);
      LinkedStays(mem, after, dest + ms[i].offset, macrosDest + BodyStart(bodies, i), bodies[i],
                  dest, dest + src, macrosDest, macrosDest + BodyStart(bodies, n));
    }
  }

  lemma ByteScanned(before: seq<Byte>, mem: seq<Byte>, after: seq<Byte>, dest: nat, macrosDest: nat,
                                       section: seq<Byte>,
                    ms: seq<Symbol>, bodies: seq<seq<Byte>>, n: nat, src: nat)
    requires Scanned(before, mem, dest, macrosDest, section, ms, bodies, n, src)
    requires src < |section| && dest + src < macrosDest && after == mem[dest + src := section[src]]
    ensures Scanned(before, after, dest, macrosDest, section, ms, bodies, n, src + 1)
  {
    hide Linked, AllLinked, BodyStart;
    LinksStay(mem, after, dest, macrosDest, ms, bodies, n, src);
  }

  lemma OneMoreLink(mem: seq<Byte>, dest: nat, macrosDest: nat, ms: seq<Symbol>,
                                       bodies: seq<seq<Byte>>, n: nat)
    requires n < |ms| == |bodies| && Linked(mem, dest + ms[n].offset, macrosDest + BodyStart(bodies, n), bodies[n])
    ensures AllLinked(mem, dest, macrosDest, ms, bodies, n) ==> AllLinked(mem, dest, macrosDest, ms, bodies, n + 1)
  {
    hide Linked, BodyStart;
  }

  lemma LinkOf(mem: seq<Byte>, dest: nat, macrosDest: nat, ms: seq<Symbol>, bodies: seq<seq<Byte>>,
                                  n: nat, i: nat)
    requires i < n <= |ms| == |bodies| && AllLinked(mem, dest, macrosDest, ms, bodies, n)
    ensures Linked(mem, dest + ms[i].offset, macrosDest + BodyStart(bodies, i), bodies[i])
  {
    hide Linked, BodyStart;
  }

  lemma CodeStays(mem: seq<Byte>, after: seq<Byte>, dest: nat, section: seq<Byte>, ms: seq<Symbol>,
                                     n: nat, src: nat)
    requires n < |ms| && ms[n].offset == src && src + PLACEHOLDER <= |section| && dest + src + PLACEHOLDER <= |mem|
    requires CodeKept(mem, dest, section, ms, n, src) && SameOn(mem, after, dest, dest + src)
    ensures CodeKept(after, dest, section, ms, n + 1, src + PLACEHOLDER)
  {
    forall x | 0 <= x < src + PLACEHOLDER && !InPlaceholder(ms, n + 1, x) ensures after[dest + x] == section[x] {
      assert !InPlaceholder(ms, n, x);
      assert src <= x < src + PLACEHOLDER ==> InPlaceholder(ms, n + 1, x);
    }
  }

  lemma MacroScanned(before: seq<Byte>, mem: seq<Byte>, after: seq<Byte>, dest: nat,
                                        macrosDest: nat, section: seq<Byte>,
                     ms: seq<Symbol>, bodies: seq<seq<Byte>>, n: nat, src: nat)
    requires Scanned(before, mem, dest, macrosDest, section, ms, bodies, n, src)
    requires n < |ms| && ms[n].offset == src < |section| && dest + src + PLACEHOLDER <= macrosDest && |after| == |mem|
    requires Linked(after, dest + src, macrosDest + BodyStart(bodies, n), bodies[n])
    requires var at := macrosDest + BodyStart(bodies, n);
             SameOutside(mem, after, dest + src, dest + src + PLACEHOLDER, at, at + |bodies[n]| + PLACEHOLDER)
    ensures Scanned(before, after, dest, macrosDest, section, ms, bodies, n + 1, src + PLACEHOLDER)
    ensures BodyStart(bodies, n + 1) == BodyStart(bodies, n) + |bodies[n]| + PLACEHOLDER
  {
    hide BodyStart, CodeKept, AllLinked;
    BodyStartNext(bodies, n);
    OneMoreLink(after, dest, macrosDest, ms, bodies, n);
    var at := macrosDest + BodyStart(bodies, n);
    OutsideStays(before, mem, after, dest, dest + src, dest + src + PLACEHOLDER, macrosDest, at,
                 at + |bodies[n]| + PLACEHOLDER);
    assert SameOn(mem, after, dest, dest + src) && SameOn(mem, after, macrosDest, at);
    hide Linked, SameOutside, SameOn;
    LinksStay(mem, after, dest, macrosDest, ms, bodies, n, src);
    if src + PLACEHOLDER <= |section| { CodeStays(mem, after, dest, section, ms, n, src); }
  }

  lemma NothingScanned(mem: seq<Byte>, dest: nat, macrosDest: nat, section: seq<Byte>, ms: seq<Symbol>,
                       bodies: seq<seq<Byte>>)
    requires |ms| == |bodies| && dest <= macrosDest && macrosDest + BodyStart(bodies, |bodies|) <= |mem|
    ensures Scanned(mem, mem, dest, macrosDest, section, ms, bodies, 0, 0) && BodyStart(bodies, 0) == 0
  {
    BodyStartAtMost(bodies);
  }

  const MAX_SECTION_SIZE: nat := 0x1000

  /** The outcome of the scan: what it expands, and whether it fails. */
  predicate Loads(section: seq<Byte>, ms: seq<Symbol>, describe: Bodies) {
    var n := Expands(ms, 0, |section|);
    && |section| <= MAX_SECTION_SIZE
    && (forall i :: 0 <= i < n ==> ms[i].id != 0 && describe.known(ms[i]))
    && (n > 0 ==> ms[n - 1].offset + PLACEHOLDER <= |section|)
  }

  /** The cursors of the scan: `macro` points at the n-th listed entry, or behind the table when the
      section has no more of them. */
  ghost predicate Cursors(table: seq<Symbol>, sectionId: nat, macro: nat, ms: seq<Symbol>, describe: Bodies, n: nat,
                          src: nat, size: nat) {
    && macro <= |table| && n <= |ms| && Listed(table, macro, sectionId) == ms[n..]
    && (macro < |table| ==> table[macro].owner == sectionId)
    && Expands(ms, 0, size) == n + Expands(ms[n..], src, size)
    && (forall i :: 0 <= i < n ==> ms[i].id != 0 && describe.known(ms[i]))
    && (n == 0 ==> src <= size) && (n > 0 && src >= size ==> src == size || src == ms[n - 1].offset + PLACEHOLDER)
    && (n > 0 ==> ms[n - 1].offset + PLACEHOLDER <= src)
  }

  lemma NextByte(table: seq<Symbol>, sectionId: nat, macro: nat, ms: seq<Symbol>, describe: Bodies, n: nat, src: nat,
                 size: nat)
    requires Cursors(table, sectionId, macro, ms, describe, n, src, size) && src < size
    requires macro == |table| || src != table[macro].offset
    ensures Cursors(table, sectionId, macro, ms, describe, n, src + 1, size)
  {
    ExpandsSkips(ms[n..], src, size);
    hide Expands;
  }

  lemma ThisMacro(table: seq<Symbol>, sectionId: nat, macro: nat, ms: seq<Symbol>, describe: Bodies, n: nat, src: nat,
                  size: nat)
    requires Cursors(table, sectionId, macro, ms, describe, n, src, size) && src < size
    requires macro < |table| && src == table[macro].offset
    ensures n < |ms| && ms[n] == table[macro] && n < Expands(ms, 0, size)
  {
    assert ms[n..][0] == table[macro];
  }

  lemma NextMacro(table: seq<Symbol>, sectionId: nat, macro: nat, ms: seq<Symbol>, describe: Bodies, n: nat, src: nat,
                  size: nat)
    requires Cursors(table, sectionId, macro, ms, describe, n, src, size) && src < size
    requires macro < |table| && src == table[macro].offset && table[macro].id != 0 && describe.known(table[macro])
    ensures var next := if macro + 1 < |table| && table[macro + 1].owner != sectionId then |table| else macro + 1;
            Cursors(table, sectionId, next, ms, describe, n + 1, src + PLACEHOLDER, size)
  {
    ThisMacro(table, sectionId, macro, ms, describe, n, src, size);
    assert ms[n..][1..] == ms[n + 1..];
    ExpandsOne(ms[n..], src, size);
    hide Expands;
    assert ms[n..] == [table[macro]] + Listed(table, macro + 1, sectionId);
    assert ms[n + 1..] == Listed(table, macro + 1, sectionId);
  }

  lemma ScanEnds(table: seq<Symbol>, sectionId: nat, macro: nat, ms: seq<Symbol>, describe: Bodies, n: nat, src: nat,
                 section: seq<Byte>)
    requires Cursors(table, sectionId, macro, ms, describe, n, src, |section|) && |section| <= src &&
             |section| <= MAX_SECTION_SIZE
    ensures n == Expands(ms, 0, |section|) && (src == |section| <==> Loads(section, ms, describe))
  {
    ExpandsNone(ms[n..], src, |section|);
    hide Expands;
  }

  /** Scan one byte of the section. */
  method CopyByte(mem: array<Byte>, dest: nat, macrosDest: nat, section: seq<Byte>, src: nat,
                  ghost before: seq<Byte>, ghost ms: seq<Symbol>, ghost bodies: seq<seq<Byte>>, ghost n: nat)
    requires src < |section| && dest + src < macrosDest <= mem.Length
    requires Scanned(before, mem[..], dest, macrosDest, section, ms, bodies, n, src)
    modifies mem
    ensures Scanned(before, mem[..], dest, macrosDest, section, ms, bodies, n, src + 1)
  {
    hide Scanned;
    mem[dest + src] := section[src];
    ByteScanned(before, old(mem[..]), mem[..], dest, macrosDest, section, ms, bodies, n, src);
  }

  /** Scan one placeholder. */
  method ExpandNext(mem: array<Byte>, m: Symbol, describe: Bodies, dest: nat, macrosDest: nat, src: nat, used: nat,
                    ghost section: seq<Byte>, ghost before: seq<Byte>, ghost ms: seq<Symbol>, ghost n: nat)
    returns (err: bool, size: nat)
    requires n < |ms| && m == ms[n] && m.offset == src < |section| && dest + src + PLACEHOLDER <= macrosDest
    requires var bodies := BodiesOf(ms, describe, macrosDest);
             && used == BodyStart(bodies, n) && macrosDest + BodyStart(bodies, |bodies|) <= mem.Length
             && Scanned(before, mem[..], dest, macrosDest, section, ms, bodies, n, src)
    modifies mem
    ensures err <==> m.id == 0 || !describe.known(m)
    ensures var bodies := BodiesOf(ms, describe, macrosDest);
            !err ==> used + size == BodyStart(bodies, n + 1)
                     && Scanned(before, mem[..], dest, macrosDest, section, ms, bodies, n + 1, src + PLACEHOLDER)
  {
    hide Scanned, Linked, SameOutside, BodyStart, BodiesOf;
    ghost var bodies := BodiesOf(ms, describe, macrosDest);
    BodyStartGrows(bodies, n, |bodies|);
    BodyAtItsPlace(ms, describe, macrosDest, n);
    err, size := ExpandMacro(mem, m, describe, dest + src, macrosDest + used);
    if !err { MacroScanned(before, old(mem[..]), mem[..], dest, macrosDest, section, ms, bodies, n, src); }
  }

  lemma TooLong(section: seq<Byte>, ms: seq<Symbol>, describe: Bodies)
    requires |section| > MAX_SECTION_SIZE
    ensures !Loads(section, ms, describe)
  {}

  lemma ScanStarts(table: seq<Symbol>, sectionId: nat, describe: Bodies, size: nat)
    ensures var first := FirstMacro(table, 0, sectionId);
            var macro := if first < |table| && table[first].owner != sectionId then |table| else first;
            Cursors(table, sectionId, macro, SectionMacros(table, sectionId), describe, 0, 0, size)
  {
    hide Expands;
  }

  lemma ReachedUnknown(section: seq<Byte>, ms: seq<Symbol>, describe: Bodies, n: nat)
    requires n < Expands(ms, 0, |section|) && (ms[n].id == 0 || !describe.known(ms[n]))
    ensures !Loads(section, ms, describe)
  {}

  /** Copy a section and link its macros.  It fails exactly when a reached entry is no known macro or
      the last placeholder does not fit. */
  method ExpandSection(table: seq<Symbol>, sectionId: nat, section: seq<Byte>, describe: Bodies, mem: array<Byte>,
                       dest: nat, macrosDest: nat)
    returns (err: bool, sizeSection: nat, sizeMacros: nat)
    requires |table| > 0 && dest + MAX_SECTION_SIZE + PLACEHOLDER <= macrosDest
    requires macrosDest + BodyStart(BodiesOf(SectionMacros(table, sectionId), describe, macrosDest),
                                    |SectionMacros(table, sectionId)|) <= mem.Length
    modifies mem
    ensures !err <==> Loads(section, SectionMacros(table, sectionId), describe)
    ensures !err ==>
              var ms := SectionMacros(table, sectionId);
              var bodies := BodiesOf(ms, describe, macrosDest);
              var n := Expands(ms, 0, |section|);
              && sizeSection == |section| && sizeMacros == BodyStart(bodies, n)
              && Scanned(old(mem[..]), mem[..], dest, macrosDest, section, ms, bodies, n, |section|)
  {
    hide Scanned, BodyStart, BodiesOf, Expands, FirstMacro, Cursors, Loads, Listed, SectionMacros;
    err, sizeSection, sizeMacros := true, 0, 0;
    if |section| > MAX_SECTION_SIZE {
      TooLong(section, SectionMacros(table, sectionId), describe);
      return;
    }
    var macro: nat := GetSectionMacrosStart(table, sectionId);
    ghost var ms := SectionMacros(table, sectionId);
    ghost var bodies := BodiesOf(ms, describe, macrosDest);
    if macro < |table| && table[macro].owner != sectionId { macro := |table|; }
    ghost var n := 0;
    var src: nat, macrosCursor: nat := 0, 0;
    NothingScanned(mem[..], dest, macrosDest, section, ms, bodies);
    ScanStarts(table, sectionId, describe, |section|);
    while src < |section|
      invariant n <= |ms| && macro <= |table| && macrosCursor == BodyStart(bodies, n)
      invariant Cursors(table, sectionId, macro, ms, describe, n, src, |section|)
      invariant Scanned(old(mem[..]), mem[..], dest, macrosDest, section, ms, bodies, n, src)
    {
      if macro == |table| || src != table[macro].offset {
        CopyByte(mem, dest, macrosDest, section, src, old(mem[..]), ms, bodies, n);
        NextByte(table, sectionId, macro, ms, describe, n, src, |section|);
        src := src + 1;
        continue;
      }
      var m := table[macro];
      ThisMacro(table, sectionId, macro, ms, describe, n, src, |section|);
      var size;
      err, size := ExpandNext(mem, m, describe, dest, macrosDest, src, macrosCursor, section, old(mem[..]), ms, n);
      if err {
        ReachedUnknown(section, ms, describe, n);
        return;
      }
      NextMacro(table, sectionId, macro, ms, describe, n, src, |section|);
      src := src + PLACEHOLDER;
      macrosCursor := macrosCursor + size;
      macro := macro + 1;
      n := n + 1;
      if macro < |table| && table[macro].owner != sectionId { macro := |table|; }
    }
    ScanEnds(table, sectionId, macro, ms, describe, n, src, section);
    err := src != |section|;
    if !err { sizeSection, sizeMacros := src, macrosCursor; }
  }

  /** A loaded section: code outside placeholders is unmoved, every macro runs its own body and returns
      behind its own placeholder, and the bodies lie one after the other without overlap. */
  lemma LoadedSectionFlows(before: seq<Byte>, mem: seq<Byte>, dest: nat, macrosDest: nat, section: seq<Byte>,
                           ms: seq<Symbol>, bodies: seq<seq<Byte>>, n: nat, i: nat, j: nat)
    requires Scanned(before, mem, dest, macrosDest, section, ms, bodies, n, |section|)
    requires i < n && i < j <= n && |mem| <= INT32 - JMP_SIZE
    ensures var start := macrosDest + BodyStart(bodies, i);
            var end := start + |bodies[i]|;
            && dest + ms[i].offset + PLACEHOLDER <= dest + |section| <= macrosDest <= start &&
               end + PLACEHOLDER <= |mem|
            && JumpTarget(mem, dest + ms[i].offset) == Some(start)
            && mem[start..end] == bodies[i]
            && JumpTarget(mem, end) == Some(dest + ms[i].offset + PLACEHOLDER)
            && end + PLACEHOLDER <= macrosDest + BodyStart(bodies, j)
  {
    hide JumpTarget, CodeKept, SameOutside, AllLinked, BodyStart;
    LinkOf(mem, dest, macrosDest, ms, bodies, n, i);
    LinkedFlow(mem, dest + ms[i].offset, macrosDest + BodyStart(bodies, i), bodies[i]);
    BodyStartGrows(bodies, i, j);
  }

  /** A section whose known macros are listed by increasing offset, without overlap and within the
      section, loads with all of them; when the listing is not like that, some macro stays unexpanded. */
  lemma WellListedSectionLoads(section: seq<Byte>, ms: seq<Symbol>, describe: Bodies)
    requires |section| <= MAX_SECTION_SIZE
    requires forall i :: 0 <= i < |ms| ==> ms[i].id != 0 && describe.known(ms[i])
    ensures Loads(section, ms, describe) && Expands(ms, 0, |section|) == |ms|
            <==> Spaced(ms, 0, |section|) && (|ms| > 0 ==> ms[|ms| - 1].offset + PLACEHOLDER <= |section|)
  {
    ExpandsAllIffSpaced(ms, 0, |section|);
    hide Expands, Spaced;
  }

  /** A macro listed after one with a larger offset is silently left as a placeholder. */
  lemma UnorderedMacroStays()
    ensures exists ms: seq<Symbol>, section: seq<Byte>, describe: Bodies ::
              |ms| == 2 && ms[1].offset + PLACEHOLDER <= ms[0].offset && Loads(section, ms, describe)
              && Expands(ms, 0, |section|) == 1
  {
    var ms := [Symbol(0, 8, 1, 0), Symbol(0, 0, 2, 0)];
    var section: seq<Byte> := seq(16, _ => 0);
    var describe := Bodies.Bodies(_ => true, (_, _) => []);
    assert ms[1..] == [Symbol(0, 0, 2, 0)];
    assert Expands(ms[1..], 16, 16) == 0;
    assert Expands(ms, 0, |section|) == 1;
    assert Loads(section, ms, describe);
  }
}
