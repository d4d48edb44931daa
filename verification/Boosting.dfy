/** Input boosting and fast contract tracing: replicating the contract traces of the original inputs
gives, position by position, the traces of all boosted inputs. */
module Boosting {
  import opened Bytes
  import opened Common
  import opened Memory
  import opened BranchDecoder
  import opened Instructions
  import opened Taint
  import opened ContractModel
  import opened Runs
  import opened Termination
  import opened Noninterference
  import opened Untracked
  import opened UnicornModels

  // ---------------------------------------------------------------------------------------------
  // Input data of one actor, and the sandbox it initialises

  /** Main area, faulty area, eight registers and eight 256-bit vector registers, in 64-bit words; the
      padding that follows is not data. */
  const GPR_SLOT := 1024
  const DATA_WORDS := 1064
  const INPUT_WORDS := 1536

  const MAIN_OFFSET := 4096
  const OVERFLOW_OFFSET := 12608
  const DATA_SIZE := 16384
  const RSP_OFFSET := 8184

  const FLAGS_SLOT := GPR_SLOT + 6

  type Input = i: seq<Word> | |i| == INPUT_WORDS witness seq(INPUT_WORDS, _ => 0)
  type InputTaint = t: seq<bool> | |t| == INPUT_WORDS witness seq(INPUT_WORDS, _ => false)

  function StatusFlags(f: Flags): Flags {
    (f & 0x8D7) | 0x2
  }

  /** Only the status flags of the flags word survive, and bit 1 is always set. */
  function PatchFlags(v: Word): Flags {
    StatusFlags((v % 0x1_0000) as Flags)
  }

  function Slot(i: Input, j: nat): Word
    requires j < INPUT_WORDS
  {
    if j == FLAGS_SLOT then PatchFlags(i[j]) as int else i[j]
  }

  function ByteOf(v: Word, k: nat): Byte
    requires k < 8
  {
    if k == 0 then (v % 256) as Byte else ByteOf(v / 256, k - 1)
  }

  function LoadedMem(i: Input): Mem {
    seq(DATA_SIZE, x requires 0 <= x < DATA_SIZE =>
      if MAIN_OFFSET <= x < OVERFLOW_OFFSET then ByteOf(Slot(i, (x - MAIN_OFFSET) / 8), x % 8) else 0)
  }

  /** Registers outside the input hold sandbox addresses. */
  function LoadedRegs(i: Input, base: Word): Registers
    requires base + DATA_SIZE < WORD_LIMIT
  {
    map[A := i[GPR_SLOT], B := i[GPR_SLOT + 1], C := i[GPR_SLOT + 2], D := i[GPR_SLOT + 3],
        SI := i[GPR_SLOT + 4], DI := i[GPR_SLOT + 5],
        SP := base + RSP_OFFSET, BP := base + RSP_OFFSET, Extended(14) := base + MAIN_OFFSET]
  }

  function Load(i: Input, base: Word): Cpu
    requires base + DATA_SIZE < WORD_LIMIT
  {
    Cpu(LoadedRegs(i, base), PatchFlags(i[FLAGS_SLOT]), LoadedMem(i))
  }

  // ---------------------------------------------------------------------------------------------
  // From tainted labels to tainted input words

  /** The input word that holds the initial value of a label, if any does. */
  function SlotOf(l: Label): Option<nat> {
    match l
    case WordLabel(w) =>
      var j := (w - MAIN_OFFSET) / 8;
      if 0 <= j < INPUT_WORDS then Some(j) else None
    case FlagLabel(_) => Some(FLAGS_SLOT)
    case RegLabel(r) =>
      match r
      case A => Some(GPR_SLOT)
      case B => Some(GPR_SLOT + 1)
      case C => Some(GPR_SLOT + 2)
      case D => Some(GPR_SLOT + 3)
      case SI => Some(GPR_SLOT + 4)
      case DI => Some(GPR_SLOT + 5)
      case SP => Some(GPR_SLOT + 7)
      case _ => None
  }

  function InputTaintOf(labels: set<Label>): InputTaint {
    var slots := set l | l in labels && SlotOf(l).Some? :: SlotOf(l).value;
    seq(INPUT_WORDS, j => j in slots)
  }

  /** Inputs that agree on all tainted data words initialise agreeing machines. */
  lemma TaintedWordsAgree(labels: set<Label>, i: Input, j: Input, base: Word)
    requires base + DATA_SIZE < WORD_LIMIT
    requires forall k :: 0 <= k < DATA_WORDS && InputTaintOf(labels)[k] ==> i[k] == j[k]
    ensures InputsAgree(labels, Load(i, base), Load(j, base))
  {
    hide PatchFlags, ByteOf, FlagBit;
    var taint := InputTaintOf(labels);
    forall l | l in labels && SlotOf(l).Some? ensures taint[SlotOf(l).value] {}
    forall f | FlagLabel(f) in labels
      ensures Load(i, base).flags == Load(j, base).flags
    {
      assert SlotOf(FlagLabel(f)) == Some(FLAGS_SLOT);
    }
    forall x | 0 <= x < DATA_SIZE && WordLabel(WordOf(x)) in labels
      ensures LoadedMem(i)[x] == LoadedMem(j)[x]
    {
      if MAIN_OFFSET <= x < OVERFLOW_OFFSET {
        assert SlotOf(WordLabel(WordOf(x))) == Some((x - MAIN_OFFSET) / 8);
      }
    }
    forall r | RegLabel(r) in labels
      ensures RegValue(LoadedRegs(i, base), r) == RegValue(LoadedRegs(j, base), r)
    {
      assert SlotOf(RegLabel(r)).Some? ==> taint[SlotOf(RegLabel(r)).value];
    }
  }

  // ---------------------------------------------------------------------------------------------
  // What the words of an input initialise

  /** The eight bytes of a word, read as a number, are the word. */
  lemma {:induction false} WordRead(v: Word, mem: Mem, a: int, n: nat)
    requires n <= 8 && forall k :: 8 - n <= k < 8 ==> ByteAt(mem, a + k) == ByteOf(v, k)
    ensures LittleEndian(Read(mem, a + 8 - n, n)) == Shifted(v, 8 - n)
    decreases n
  {
    if n == 0 {
      ShiftedOut(v);
    } else {
      WordRead(v, mem, a, n - 1);
      ByteShifted(v, 8 - n);
      var bs := Read(mem, a + 8 - n, n);
      assert bs[1..] == Read(mem, a + 8 - (n - 1), n - 1);
      assert bs[0] == ByteAt(mem, a + (8 - n));
    }
  }

  /** A word without its lowest `k` bytes. */
  function Shifted(v: Word, k: nat): Word {
    if k == 0 then v else Shifted(v / 256, k - 1)
  }

  lemma ByteShifted(v: Word, k: nat)
    requires k < 8
    ensures Shifted(v, k) == (ByteOf(v, k) as int) + 256 * Shifted(v, k + 1)
    decreases k
  {
    if k == 0 { assert Shifted(v, 1) == Shifted(v / 256, 0); } else { ByteShifted(v / 256, k - 1); }
  }

  lemma ShiftedOut(v: Word)
    ensures Shifted(v, 8) == 0
  {
    var half: Word := v / 256 / 256 / 256 / 256;
    assert half < 0x1_0000_0000;
    assert Shifted(v, 8) == Shifted(v / 256, 7) == Shifted(v / 256 / 256, 6) == Shifted(v / 256 / 256 / 256, 5)
        == Shifted(half, 4);
    var quarter: Word := half / 256 / 256;
    assert quarter < 0x1_0000 && Shifted(half, 4) == Shifted(half / 256, 3) == Shifted(quarter, 2);
    assert Shifted(quarter, 2) == Shifted(quarter / 256, 1) == Shifted(quarter / 256 / 256, 0) == 0;
  }

  lemma LoadedWord(i: Input, w: nat)
    requires w < DATA_WORDS
    ensures LittleEndian(Read(LoadedMem(i), MAIN_OFFSET + 8 * w, 8)) == Slot(i, w)
  {
    hide Slot, ByteOf;
    var mem, a := LoadedMem(i), MAIN_OFFSET + 8 * w;
    forall k | 0 <= k < 8 ensures ByteAt(mem, a + k) == ByteOf(Slot(i, w), k) {
      assert (a + k - MAIN_OFFSET) / 8 == w && (a + k) % 8 == k;
    }
    WordRead(Slot(i, w), mem, a, 8);
    assert Shifted(Slot(i, w), 0) == Slot(i, w);
  }

  /** The sandbox holds the words of the input in order, little-endian, with patched flags, and zeros
      around them. */
  lemma LoadedWords(i: Input, base: Word)
    requires base + DATA_SIZE < WORD_LIMIT
    ensures var cpu := Load(i, base);
            && |cpu.mem| == DATA_SIZE && cpu.flags == PatchFlags(i[FLAGS_SLOT])
            && (forall w :: 0 <= w < DATA_WORDS ==>
                  LittleEndian(Read(cpu.mem, MAIN_OFFSET + 8 * w, 8)) ==
                  if w == FLAGS_SLOT then cpu.flags as int else i[w])
            && (forall x :: 0 <= x < MAIN_OFFSET || MAIN_OFFSET + 8 * DATA_WORDS <= x < DATA_SIZE ==>
                  ByteAt(cpu.mem, x) == 0)
  {
    hide PatchFlags, ByteOf, LoadedRegs, LoadedMem, Read, LittleEndian, ByteAt;
    LoadedZeros(i);
    var cpu := Load(i, base);
    forall w | 0 <= w < DATA_WORDS
      ensures LittleEndian(Read(cpu.mem, MAIN_OFFSET + 8 * w, 8)) == if w == FLAGS_SLOT then cpu.flags as int else i[w]
    {
      LoadedWord(i, w);
    }
  }

  lemma LoadedZeros(i: Input)
    ensures |LoadedMem(i)| == DATA_SIZE
    ensures forall x :: 0 <= x < MAIN_OFFSET || MAIN_OFFSET + 8 * DATA_WORDS <= x < DATA_SIZE ==>
                          ByteAt(LoadedMem(i), x) == 0
  {
    hide Slot, ByteOf;
  }

  /** The general-purpose registers hold the words of their slots. */
  lemma LoadedRegisters(i: Input, base: Word, r: Reg)
    requires base + DATA_SIZE < WORD_LIMIT && r in {A, B, C, D, SI, DI}
    ensures SlotOf(RegLabel(r)).Some? && RegValue(Load(i, base).regs, r) == i[SlotOf(RegLabel(r)).value]
  {
    hide LoadedMem, PatchFlags;
  }

  /** A tainted word is one that a tainted label starts from, and every label starts from at most one. */
  lemma TaintByLabel(labels: set<Label>, k: nat)
    requires k < INPUT_WORDS
    ensures InputTaintOf(labels)[k] <==> exists l :: l in labels && InputTaintOf({l})[k]
  {
    if InputTaintOf(labels)[k] {
      var l :| l in labels && SlotOf(l) == Some(k);
      assert InputTaintOf({l})[k];
    }
    forall l | l in labels && InputTaintOf({l})[k] ensures InputTaintOf(labels)[k] {}
  }

  lemma OneWordPerLabel(l: Label, j: nat, k: nat)
    requires j < INPUT_WORDS && k < INPUT_WORDS && InputTaintOf({l})[j] && InputTaintOf({l})[k]
    ensures j == k
  {}

  lemma NothingTainted(k: nat)
    requires k < INPUT_WORDS
    ensures !InputTaintOf({})[k]
  {}

  /** Two machines have the same register, flag or memory word. */
  predicate SameAt(l: Label, a: Cpu, b: Cpu) {
    match l
    case RegLabel(r) => RegValue(a.regs, r) == RegValue(b.regs, r)
    case FlagLabel(f) => FlagBit(a.flags, f) == FlagBit(b.flags, f)
    case WordLabel(w) => Read(a.mem, w, 8) == Read(b.mem, w, 8)
  }

  /** The labels that the data words of an input initialise. */
  predicate Initialised(l: Label) {
    match l
    case RegLabel(r) => r in {A, B, C, D, SI, DI}
    case FlagLabel(f) => f in {CF, PF, AF, ZF, SF, OF}
    case WordLabel(w) => MAIN_OFFSET <= w < OVERFLOW_OFFSET
  }

  /** Changing word `k` of some input changes what a label starts from. */
  ghost predicate DependsOn(l: Label, k: nat, base: Word)
    requires k < DATA_WORDS && base + DATA_SIZE < WORD_LIMIT
  {
    exists i: Input, v: Word :: Changes(l, i, k, v, base)
  }

  predicate Changes(l: Label, i: Input, k: nat, v: Word, base: Word)
    requires k < DATA_WORDS && base + DATA_SIZE < WORD_LIMIT
  {
    !SameAt(l, Load(i, base), Load(i[k := v], base))
  }

  lemma UntouchedLabel(l: Label, i: Input, k: nat, v: Word, base: Word)
    requires k < DATA_WORDS && base + DATA_SIZE < WORD_LIMIT && (l.WordLabel? ==> l.offset % 8 == 0)
    requires !Initialised(l) || SlotOf(l) != Some(k)
    ensures SameAt(l, Load(i, base), Load(i[k := v], base))
  {
    hide ByteOf;
    var j := i[k := v];
    if l.FlagLabel? && !Initialised(l) { PatchedFlags(l.flag, i[FLAGS_SLOT], j[FLAGS_SLOT]); }
    hide PatchFlags, FlagBit;
    if l.WordLabel? {
      var a, b := Load(i, base), Load(j, base);
      forall x: int | l.offset <= x < l.offset + 8 ensures ByteAt(a.mem, x) == ByteAt(b.mem, x) {
        assert MAIN_OFFSET <= x < OVERFLOW_OFFSET ==> SlotOf(l) == Some((x - MAIN_OFFSET) / 8);
      }
      SameRead(a.mem, b.mem, l.offset, 8);
    }
  }

  lemma SameRead(a: Mem, b: Mem, from: int, n: nat)
    requires forall x :: from <= x < from + n ==> ByteAt(a, x) == ByteAt(b, x)
    ensures Read(a, from, n) == Read(b, from, n)
  {}

  /** The other flags are cleared. */
  lemma PatchedFlags(f: Flag, u: Word, v: Word)
    requires f !in {CF, PF, AF, ZF, SF, OF}
    ensures FlagBit(PatchFlags(u), f) == FlagBit(PatchFlags(v), f)
  {
    forall b: Flags ensures !FlagBit(StatusFlags(b), f) {}
    hide StatusFlags, FlagBit;
  }

  const ZEROS: Input := seq(INPUT_WORDS, _ => 0)

  /** Setting a word changes the label that it is tainted for. */
  lemma TouchedLabel(l: Label, base: Word)
    requires base + DATA_SIZE < WORD_LIMIT && (l.WordLabel? ==> l.offset % 8 == 0) && Initialised(l)
    ensures SlotOf(l).Some? && SlotOf(l).value < DATA_WORDS && DependsOn(l, SlotOf(l).value, base)
  {
    hide Load, Changes, FlagBit;
    if l.RegLabel? { TouchedRegister(l.reg, base); }
    else if l.FlagLabel? { TouchedFlag(l.flag, base); }
    else { TouchedWord(l.offset, base); }
  }

  lemma TouchedRegister(r: Reg, base: Word)
    requires base + DATA_SIZE < WORD_LIMIT && r in {A, B, C, D, SI, DI}
    ensures SlotOf(RegLabel(r)).Some? && Changes(RegLabel(r), ZEROS, SlotOf(RegLabel(r)).value, 1, base)
  {
    hide Load;
    var k := SlotOf(RegLabel(r)).value;
    LoadedRegisters(ZEROS, base, r);
    LoadedRegisters(ZEROS[k := 1], base, r);
  }

  lemma TouchedFlag(f: Flag, base: Word)
    requires base + DATA_SIZE < WORD_LIMIT && f in {CF, PF, AF, ZF, SF, OF}
    ensures Changes(FlagLabel(f), ZEROS, FLAGS_SLOT, Mask(f) as int, base)
  {
    hide PatchFlags, FlagBit, LoadedMem, LoadedRegs, Mask;
    FlagKept(f);
  }

  lemma TouchedWord(w: int, base: Word)
    requires base + DATA_SIZE < WORD_LIMIT && MAIN_OFFSET <= w < OVERFLOW_OFFSET && w % 8 == 0
    ensures Changes(WordLabel(w), ZEROS, (w - MAIN_OFFSET) / 8, 1, base)
  {
    hide PatchFlags, LoadedMem, LoadedRegs, Read;
    var k := (w - MAIN_OFFSET) / 8;
    var a, b := LoadedMem(ZEROS), LoadedMem(ZEROS[k := 1]);
    LowByte(ZEROS, k, w);
    if Read(a, w, 8) == Read(b, w, 8) { SameReadAt(a, b, w, 8); }
  }

  lemma SameReadAt(a: Mem, b: Mem, from: int, n: nat)
    requires n > 0 && Read(a, from, n) == Read(b, from, n)
    ensures ByteAt(a, from) == ByteAt(b, from)
  {
    assert Read(a, from, n)[0] == Read(b, from, n)[0];
  }

  lemma FlagKept(f: Flag)
    requires f in {CF, PF, AF, ZF, SF, OF}
    ensures FlagBit(PatchFlags(Mask(f) as int), f) && !FlagBit(PatchFlags(0), f)
  {
    StatusKept(f);
    hide PatchFlags, FlagBit, StatusFlags, Mask;
    PatchedWord(Mask(f));
    PatchedWord(0);
  }

  lemma StatusKept(f: Flag)
    requires f in {CF, PF, AF, ZF, SF, OF}
    ensures FlagBit(StatusFlags(Mask(f)), f) && !FlagBit(StatusFlags(0), f)
  {}

  lemma PatchedWord(b: Flags)
    ensures PatchFlags(b as int) == StatusFlags(b)
  {
    hide PatchFlags, StatusFlags;
    var v := b as int;
    assert 0 <= v < 0x1_0000 && v as Flags == b;
    LowHalf(v);
    PatchedLow(v, v, b);
  }

  lemma LowHalf(v: int)
    requires 0 <= v < 0x1_0000
    ensures v % 0x1_0000 == v
  {}

  lemma PatchedLow(v: Word, low: int, b: Flags)
    requires v % 0x1_0000 == low && 0 <= low < 0x1_0000 && low as Flags == b
    ensures PatchFlags(v) == StatusFlags(b)
  {
    hide StatusFlags;
  }

  lemma LowFlags()
    ensures PatchFlags(0) as int == 2 && PatchFlags(1) as int == 3
  {
    assert StatusFlags(0) == 2 && StatusFlags(1) == 3;
    hide PatchFlags, StatusFlags;
    PatchedWord(0);
    PatchedWord(1);
  }

  lemma LowByte(i: Input, k: nat, w: int)
    requires k < INPUT_WORDS && i[k] == 0
    requires MAIN_OFFSET <= w < OVERFLOW_OFFSET && w % 8 == 0 && k == (w - MAIN_OFFSET) / 8
    ensures ByteAt(LoadedMem(i), w) != ByteAt(LoadedMem(i[k := 1]), w)
  {
    hide PatchFlags;
    LowFlags();
  }

  /** A label taints a data word if and only if its initial value depends on that word. */
  lemma TaintIsDependence(l: Label, k: nat, base: Word)
    requires k < DATA_WORDS && base + DATA_SIZE < WORD_LIMIT && (l.WordLabel? ==> l.offset % 8 == 0)
    ensures DependsOn(l, k, base) <==> Initialised(l) && InputTaintOf({l})[k]
  {
    hide Load, Initialised, SameAt;
    if Initialised(l) && InputTaintOf({l})[k] { TouchedLabel(l, base); }
    if DependsOn(l, k, base) {
      var i: Input, v: Word :| Changes(l, i, k, v, base);
      if !Initialised(l) || SlotOf(l) != Some(k) { UntouchedLabel(l, i, k, v, base); }
    }
  }

  // ---------------------------------------------------------------------------------------------
  // Boosted inputs

  /** A random input with the tainted data words of the original. */
  function Blend(random: Input, original: Input, taint: InputTaint): Input {
    seq(INPUT_WORDS, j requires 0 <= j < INPUT_WORDS => if j < DATA_WORDS && taint[j] then original[j] else random[j])
  }

  function BoostRound(generate: nat -> Input, state: nat, inputs: seq<Input>, taints: seq<InputTaint>): (r: seq<Input>)
    requires |inputs| == |taints|
    ensures |r| == |inputs|
  {
    seq(|inputs|, i requires 0 <= i < |inputs| => Blend(generate(state + i), inputs[i], taints[i]))
  }

  /** The seed after the rounds for `perClass` inputs per class. */
  function BoostState(state: nat, n: nat, perClass: nat): nat {
    if perClass <= 1 then state else BoostState(state, n, perClass - 1) + n
  }

  function Boosted(generate: nat -> Input, state: nat, inputs: seq<Input>, taints: seq<InputTaint>,
                   perClass: nat): seq<Input>
    requires |inputs| == |taints|
  {
    if perClass <= 1 then inputs
    else Boosted(generate, state, inputs, taints, perClass - 1)
         + BoostRound(generate, BoostState(state, |inputs|, perClass - 1), inputs, taints)
  }

  /** Input `i` of round `c` keeps the tainted data words of input `i` and has all other words from its own
      seed; the inputs of round zero are the original ones. */
  lemma BoostedWords(generate: nat -> Input, state: nat, inputs: seq<Input>, taints: seq<InputTaint>, perClass: nat,
                     c: nat, i: nat, k: nat)
    requires |inputs| == |taints| && c < (if perClass == 0 then 1 else perClass) && i < |inputs| && k < INPUT_WORDS
    ensures var boosted := Boosted(generate, state, inputs, taints, perClass);
            && 0 <= c * |inputs| + i < |boosted|
            && boosted[c * |inputs| + i][k] ==
               if c == 0 || (k < DATA_WORDS && taints[i][k]) then inputs[i][k]
               else generate(state + (c - 1) * |inputs| + i)[k]
  {
    hide Boosted, Blend;
    BoostedAt(generate, state, inputs, taints, |inputs|, perClass, c, i);
    if c > 0 { BlendAt(generate(state + (c - 1) * |inputs| + i), inputs[i], taints[i], k); }
  }

  function InputOfRound(generate: nat -> Input, state: nat, inputs: seq<Input>, taints: seq<InputTaint>, c: nat,
                        i: nat): Input
    requires |inputs| == |taints| && i < |inputs|
  {
    if c == 0 then inputs[i] else Blend(generate(state + (c - 1) * |inputs| + i), inputs[i], taints[i])
  }

  lemma {:induction false} BoostedAt(generate: nat -> Input, state: nat, inputs: seq<Input>, taints: seq<InputTaint>,
                                     n: nat, perClass: nat, c: nat, i: nat)
    requires n == |inputs| == |taints| && c < (if perClass == 0 then 1 else perClass) && i < n
    ensures var boosted := Boosted(generate, state, inputs, taints, perClass);
            && |boosted| == (if perClass == 0 then 1 else perClass) * n && 0 <= c * n + i < |boosted|
            && boosted[c * n + i] == InputOfRound(generate, state, inputs, taints, c, i)
    decreases perClass
  {
    if perClass > 1 {
      hide Boosted, Blend, BoostState, InputOfRound;
      var last := perClass - 1;
      BoostedAt(generate, state, inputs, taints, n, last, if c == last then 0 else c, i);
      OneMoreBoost(generate, state, inputs, taints, perClass);
      BoostStateIs(state, n, last);
      AtRound(Boosted(generate, state, inputs, taints, last),
              BoostRound(generate, state + (last - 1) * n, inputs, taints), n, last, c, i);
      RoundAt(generate, state, inputs, taints, last, i);
    } else {
      hide Blend;
    }
  }

  lemma RoundAt(generate: nat -> Input, state: nat, inputs: seq<Input>, taints: seq<InputTaint>, c: nat, i: nat)
    requires |inputs| == |taints| && i < |inputs| && c > 0
    ensures BoostRound(generate, state + (c - 1) * |inputs|, inputs, taints)[i] ==
            InputOfRound(generate, state, inputs, taints, c, i)
  {
    hide Blend;
  }

  lemma AtRound(before: seq<Input>, round: seq<Input>, n: nat, last: nat, c: nat, i: nat)
    requires |before| == last * n && |round| == n && c <= last && i < n
    ensures |before + round| == (last + 1) * n && 0 <= c * n + i < (last + 1) * n
    ensures c < last ==> c * n + i < last * n
    ensures (before + round)[c * n + i] == if c < last then before[c * n + i] else round[i]
  {
    if c < last { Factor(c + 1, last, n); }
  }

  lemma Factor(c: nat, d: nat, n: nat)
    requires c <= d
    ensures c * n <= d * n
  {}

  lemma OneMoreBoost(generate: nat -> Input, state: nat, inputs: seq<Input>, taints: seq<InputTaint>, perClass: nat)
    requires |inputs| == |taints| && perClass > 1
    ensures Boosted(generate, state, inputs, taints, perClass) ==
            Boosted(generate, state, inputs, taints, perClass - 1)
            + BoostRound(generate, BoostState(state, |inputs|, perClass - 1), inputs, taints)
  {}

  lemma BlendAt(random: Input, original: Input, taint: InputTaint, k: nat)
    requires k < INPUT_WORDS
    ensures Blend(random, original, taint)[k] == if k < DATA_WORDS && taint[k] then original[k] else random[k]
  {}

  lemma BoostStateIs(state: nat, n: nat, perClass: nat)
    requires perClass > 0
    ensures BoostState(state, n, perClass) == state + (perClass - 1) * n
  {}

  class DataGenerator {
    const generateOne: nat -> Input
    var state: nat
    var boostingState: nat

    constructor (generateOne: nat -> Input, seed: nat)
      ensures this.generateOne == generateOne && state == boostingState == seed
    {
      this.generateOne := generateOne;
      state, boostingState := seed, seed;
    }

    /** Copy the tainted data words of the original input over a random one, in place. */
    static method CopyTainted(random: array<Word>, original: Input, taint: InputTaint)
      requires random.Length == INPUT_WORDS
      modifies random
      ensures random[..] == Blend(old(random[..]), original, taint)
    {
      for j := 0 to DATA_WORDS
        invariant forall k :: 0 <= k < j ==> random[k] == if taint[k] then original[k] else old(random[k])
        invariant forall k :: j <= k < INPUT_WORDS ==> random[k] == old(random[k])
      {
        if taint[j] {
          random[j] := original[j];
        }
      }
    }

    /** One boosted input for every original one, from consecutive seeds. */
    method BoostOnce(inputs: seq<Input>, taints: seq<InputTaint>) returns (boosted: seq<Input>)
      requires |inputs| == |taints|
      modifies this`boostingState
      ensures boosted == BoostRound(generateOne, old(boostingState), inputs, taints)
      ensures boostingState == old(boostingState) + |inputs|
    {
      boosted := [];
      for i := 0 to |inputs|
        invariant boostingState == old(boostingState) + i
        invariant boosted == BoostRound(generateOne, old(boostingState), inputs, taints)[..i]
      {
        var g := generateOne(boostingState);
        var random := new Word[INPUT_WORDS](j requires 0 <= j < INPUT_WORDS => g[j]);
        assert random[..] == g;
        CopyTainted(random, inputs[i], taints[i]);
        boostingState := boostingState + 1;
        boosted := boosted + [random[..]];
      }
    }

    /** Extend the inputs by random ones that keep the tainted words.  The seed of the generator is left
        alone, so boosting again gives the same inputs. */
    method GenerateBoosted(inputs: seq<Input>, taints: seq<InputTaint>, perClass: nat) returns (boosted: seq<Input>)
      requires |inputs| == |taints|
      modifies this`boostingState
      ensures boosted == Boosted(generateOne, state, inputs, taints, perClass)
      ensures |inputs| > 0 ==> boostingState == BoostState(state, |inputs|, perClass)
    {
      boosted := inputs;
      if |inputs| == 0 {
        BoostedNothing(generateOne, state, taints, perClass);
        return;
      }
      boostingState := state;
      for round := 0 to perClass - (if perClass == 0 then 0 else 1)
        invariant boosted == Boosted(generateOne, state, inputs, taints, round + 1)
        invariant boostingState == BoostState(state, |inputs|, round + 1)
      {
        var next := BoostOnce(inputs, taints);
        boosted := boosted + next;
      }
    }
  }

  lemma {:induction false} BoostedNothing(generate: nat -> Input, state: nat, taints: seq<InputTaint>, perClass: nat)
    requires |taints| == 0
    ensures Boosted(generate, state, [], taints, perClass) == []
  {
    if perClass > 1 { BoostedNothing(generate, state, taints, perClass - 1); }
  }

  // ---------------------------------------------------------------------------------------------
  // Contract traces of inputs

  function Observations(trace: seq<Entry>): seq<Observation> {
    seq(|trace|, i requires 0 <= i < |trace| => trace[i].obs)
  }

  /** A traceable program: forward-only, and within the reach of the taint tracker. */
  ghost predicate Traceable(c: Config, p: Program) {
    Sound(c, p) && ForwardOnly(p)
  }

  datatype Target = Target(c: Config, p: Program, base: Word)

  ghost predicate ValidTarget(g: Target) {
    Traceable(g.c, g.p) && g.base + DATA_SIZE < WORD_LIMIT
  }

  /** The finished run on an input, with or without taint tracking. */
  function Finished(g: Target, i: Input, tracking: bool): State
    requires ValidTarget(g)
  {
    Complete(if tracking then g.c else WithoutTracking(g.c), g.p, Initial(g.p, Load(i, g.base)))
  }

  function ContractTrace(g: Target, i: Input, tracking: bool): seq<Observation>
    requires ValidTarget(g)
  {
    Observations(Finished(g, i, tracking).trace)
  }

  function TaintFor(g: Target, i: Input): InputTaint
    requires ValidTarget(g)
  {
    InputTaintOf(TaintedLabels(Finished(g, i, true).tracker))
  }

  lemma UniqueFinish(c: Config, p: Program, m: State, n: nat)
    requires WellFormed(p) && ForwardOnly(p) && StacksAgree(c, m) && Run(c, p, m, n).status != Running
    ensures Complete(c, p, m) == Run(c, p, m, n)
  {
    var k := Halts(c, p, m);
    if k <= n { FinishedStays(c, p, m, k, n); } else { FinishedStays(c, p, m, n, k); }
  }

  lemma FinishedUntracked(g: Target, i: Input)
    requires ValidTarget(g)
    ensures ContractTrace(g, i, false) == ContractTrace(g, i, true)
  {
    CompleteUntracked(g.c, g.p, Initial(g.p, Load(i, g.base)), Initial(g.p, Load(i, g.base)));
  }

  /** Whatever the random words, a boosted input has the contract trace of its original. */
  lemma BoostedInputTracesAlike(g: Target, i: Input, random: Input)
    requires ValidTarget(g) && !Finished(g, i, true).hadFault
    ensures ContractTrace(g, Blend(random, i, TaintFor(g, i)), false) == ContractTrace(g, i, true)
  {
    hide Complete;
    var j := Blend(random, i, TaintFor(g, i));
    var a, b := Initial(g.p, Load(i, g.base)), Initial(g.p, Load(j, g.base));
    var n := Halts(g.c, g.p, a);
    var labels := TaintedLabels(Finished(g, i, true).tracker);
    TaintedWordsAgree(labels, i, j, g.base);
    hide Load, InputTaintOf;
    TaintSound(g.c, g.p, Load(i, g.base), Load(j, g.base), n);
    UniqueFinish(g.c, g.p, b, n);
    FinishedUntracked(g, j);
  }

  function TraceAll(g: Target, inputs: seq<Input>, tracking: bool): (r: seq<seq<Observation>>)
    requires ValidTarget(g)
    ensures |r| == |inputs|
  {
    if |inputs| == 0 then []
    else TraceAll(g, inputs[..|inputs| - 1], tracking) + [ContractTrace(g, inputs[|inputs| - 1], tracking)]
  }

  lemma {:induction false} TraceAllAt(g: Target, inputs: seq<Input>, tracking: bool, i: nat)
    requires ValidTarget(g) && i < |inputs|
    ensures TraceAll(g, inputs, tracking)[i] == ContractTrace(g, inputs[i], tracking)
    decreases |inputs|
  {
    hide ContractTrace, ValidTarget;
    if i < |inputs| - 1 { TraceAllAt(g, inputs[..|inputs| - 1], tracking, i); }
  }

  lemma {:induction false} TraceAllAppend(g: Target, xs: seq<Input>, ys: seq<Input>, tracking: bool)
    requires ValidTarget(g)
    ensures TraceAll(g, xs + ys, tracking) == TraceAll(g, xs, tracking) + TraceAll(g, ys, tracking)
    decreases |ys|
  {
    hide ContractTrace, ValidTarget;
    if |ys| == 0 {
      assert xs + ys == xs;
    } else {
      TraceAllAppend(g, xs, ys[..|ys| - 1], tracking);
      assert (xs + ys)[..|xs + ys| - 1] == xs + ys[..|ys| - 1];
    }
  }

  ghost predicate TaintsOf(g: Target, inputs: seq<Input>, taints: seq<InputTaint>)
    requires ValidTarget(g)
  {
    && |taints| == |inputs|
    && forall i :: 0 <= i < |inputs| ==> taints[i] == TaintFor(g, inputs[i])
  }

  ghost predicate FaultFree(g: Target, inputs: seq<Input>)
    requires ValidTarget(g)
  {
    forall i :: 0 <= i < |inputs| ==> !Finished(g, inputs[i], true).hadFault
  }

  lemma RoundTracesAlike(g: Target, generate: nat -> Input, state: nat, inputs: seq<Input>, taints: seq<InputTaint>)
    requires ValidTarget(g) && TaintsOf(g, inputs, taints) && FaultFree(g, inputs)
    ensures TraceAll(g, BoostRound(generate, state, inputs, taints), false) == TraceAll(g, inputs, true)
  {
    hide ContractTrace, Finished, ValidTarget;
    var round := BoostRound(generate, state, inputs, taints);
    forall i | 0 <= i < |inputs|
      ensures TraceAll(g, round, false)[i] == TraceAll(g, inputs, true)[i]
    {
      BoostedInputTracesAlike(g, inputs[i], generate(state + i));
      TraceAllAt(g, round, false, i);
      TraceAllAt(g, inputs, true, i);
    }
  }

  lemma UntrackedTraces(g: Target, inputs: seq<Input>)
    requires ValidTarget(g)
    ensures TraceAll(g, inputs, false) == TraceAll(g, inputs, true)
  {
    hide ContractTrace, ValidTarget;
    forall i | 0 <= i < |inputs|
      ensures TraceAll(g, inputs, false)[i] == TraceAll(g, inputs, true)[i]
    {
      TraceAllAt(g, inputs, false, i);
      TraceAllAt(g, inputs, true, i);
      FinishedUntracked(g, inputs[i]);
    }
  }

  /** Inputs that run without architectural faults, with the taints of their runs. */
  ghost predicate Boostable(g: Target, inputs: seq<Input>, taints: seq<InputTaint>) {
    ValidTarget(g) && TaintsOf(g, inputs, taints) && FaultFree(g, inputs)
  }

  /** All boosted inputs trace as the original traces repeated. */
  ghost predicate TracesRepeat(g: Target, boosted: seq<Input>, inputs: seq<Input>, perClass: nat)
    requires ValidTarget(g)
  {
    TraceAll(g, boosted, false) == Repeat(TraceAll(g, inputs, true), perClass)
  }

  lemma FirstRound(g: Target, inputs: seq<Input>)
    requires ValidTarget(g)
    ensures TracesRepeat(g, inputs, inputs, 1)
  {
    hide ContractTrace, ValidTarget;
    UntrackedTraces(g, inputs);
    assert Repeat(TraceAll(g, inputs, true), 0) == [];
  }

  lemma OneMoreRound(g: Target, boosted: seq<Input>, generate: nat -> Input, seed: nat,
                     inputs: seq<Input>, taints: seq<InputTaint>, k: nat)
    requires Boostable(g, inputs, taints) && TracesRepeat(g, boosted, inputs, k)
    ensures TracesRepeat(g, boosted + BoostRound(generate, seed, inputs, taints), inputs, k + 1)
  {
    hide ContractTrace, ValidTarget, TraceAll, Finished;
    RoundTracesAlike(g, generate, seed, inputs, taints);
    TraceAllAppend(g, boosted, BoostRound(generate, seed, inputs, taints), false);
    hide BoostRound;
  }

  /** Fast contract tracing: the traces of the original inputs, repeated once per member of a class,
      are the traces of all boosted inputs. */
  lemma {:induction false} FastTracingIsFullTracing(g: Target, generate: nat -> Input, state: nat,
                                                    inputs: seq<Input>, taints: seq<InputTaint>, perClass: nat)
    requires Boostable(g, inputs, taints) && perClass >= 1
    ensures TracesRepeat(g, Boosted(generate, state, inputs, taints, perClass), inputs, perClass)
    decreases perClass
  {
    hide ValidTarget, TracesRepeat, FaultFree;
    if perClass == 1 {
      FirstRound(g, inputs);
    } else {
      FastTracingIsFullTracing(g, generate, state, inputs, taints, perClass - 1);
      OneMoreRound(g, Boosted(generate, state, inputs, taints, perClass - 1), generate,
                   BoostState(state, |inputs|, perClass - 1), inputs, taints, perClass - 1);
    }
  }

  lemma {:induction false} OriginalsFirst(generate: nat -> Input, state: nat, inputs: seq<Input>,
                                          taints: seq<InputTaint>, perClass: nat)
    requires |inputs| == |taints|
    ensures inputs <= Boosted(generate, state, inputs, taints, perClass)
  {
    if perClass > 1 { OriginalsFirst(generate, state, inputs, taints, perClass - 1); }
  }

  /** Run the model on one input; without tracking no word is tainted. */
  method TraceInput(g: Target, input: Input, tracking: bool) returns (trace: seq<Observation>, taint: InputTaint)
    requires ValidTarget(g)
    ensures trace == ContractTrace(g, input, tracking)
    ensures tracking ==> taint == TaintFor(g, input)
  {
    hide Complete, Load, InputTaintOf;
    var model := new UnicornModel(if tracking then g.c else WithoutTracking(g.c), g.p, Load(input, g.base));
    model.RunStateMachine();
    trace := Observations(model.tracer.trace);
    var labels := model.tracker.GetTaint();
    taint := InputTaintOf(labels);
  }

  /** Trace the test case with every input. */
  method ExecuteTestCaseWithInputs(g: Target, inputs: seq<Input>, tracking: bool)
    returns (traces: seq<seq<Observation>>, taints: seq<InputTaint>)
    requires ValidTarget(g)
    ensures traces == TraceAll(g, inputs, tracking)
    ensures |taints| == |inputs| && (tracking ==> TaintsOf(g, inputs, taints))
  {
    hide ContractTrace, ValidTarget, Finished;
    traces, taints := [], [];
    for i := 0 to |inputs|
      invariant traces == TraceAll(g, inputs[..i], tracking)
      invariant |taints| == i && (tracking ==> TaintsOf(g, inputs[..i], taints))
    {
      assert inputs[..i + 1][..i] == inputs[..i];
      var trace, taint := TraceInput(g, inputs[i], tracking);
      traces, taints := traces + [trace], taints + [taint];
    }
    assert inputs[..|inputs|] == inputs;
  }

  // ---------------------------------------------------------------------------------------------
  // The round manager of the fuzzer

  class RoundManager {
    const target: Target
    const perClass: nat
    const dataGen: DataGenerator
    const orgInputs: seq<Input>

    var enableFastContractTracing: bool
    var reuseCtraces: bool
    var boostedInputs: seq<Input>
    var nonBoostedCtraces: seq<seq<Observation>>
    var ctraces: seq<seq<Observation>>

    constructor (target: Target, perClass: nat, dataGen: DataGenerator, orgInputs: seq<Input>)
      requires ValidTarget(target) && FaultFree(target, orgInputs) && perClass >= 1
      ensures Valid() && this.target == target && this.perClass == perClass && this.orgInputs == orgInputs
    {
      this.target, this.perClass, this.dataGen, this.orgInputs := target, perClass, dataGen, orgInputs;
      enableFastContractTracing, reuseCtraces := true, false;
      boostedInputs, nonBoostedCtraces, ctraces := [], [], [];
    }

    ghost predicate Valid()
      reads this
    {
      ValidTarget(target) && FaultFree(target, orgInputs) && perClass >= 1
    }

    /** The boosted inputs belong to the traces of the original ones. */
    ghost predicate Matching()
      requires Valid()
      reads this
    {
      && nonBoostedCtraces == TraceAll(target, orgInputs, true)
      && TraceAll(target, boostedInputs, false) == Repeat(nonBoostedCtraces, perClass)
    }

    method BoostInputs()
      requires Valid()
      modifies this`nonBoostedCtraces, this`boostedInputs, dataGen
      ensures Valid() && Matching()
      ensures |orgInputs| <= |boostedInputs| && boostedInputs[..|orgInputs|] == orgInputs
    {
      hide ContractTrace, Finished, ValidTarget, TraceAll, TaintFor, Boosted;
      if perClass == 1 {
        var traces, _ := ExecuteTestCaseWithInputs(target, orgInputs, false);
        nonBoostedCtraces := traces;
        boostedInputs := orgInputs;
        UntrackedTraces(target, orgInputs);
        assert Repeat(nonBoostedCtraces, 0) == [];
      } else {
        var traces, taints := ExecuteTestCaseWithInputs(target, orgInputs, true);
        nonBoostedCtraces := traces;
        boostedInputs := dataGen.GenerateBoosted(orgInputs, taints, perClass);
        FastTracingIsFullTracing(target, dataGen.generateOne, dataGen.state, orgInputs, taints, perClass);
        OriginalsFirst(dataGen.generateOne, dataGen.state, orgInputs, taints, perClass);
      }
    }

    /** With or without the fast path, the contract traces are those of the boosted inputs. */
    method CollectCtraces()
      requires Valid() && Matching()
      requires reuseCtraces ==> ctraces == TraceAll(target, boostedInputs, false)
      modifies this`ctraces
      ensures ctraces == TraceAll(target, boostedInputs, false)
    {
      if reuseCtraces {
        return;
      }
      if enableFastContractTracing {
        ctraces := Repeat(nonBoostedCtraces, perClass);
        return;
      }
      var traces, _ := ExecuteTestCaseWithInputs(target, boostedInputs, false);
      ctraces := traces;
    }
  }
}
