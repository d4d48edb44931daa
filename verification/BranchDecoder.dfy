/** Decoding of x86 conditional branches, as the speculator does it, against the condition codes and
displacements of the Jcc and LOOP/LOOPcc entries in chapter 3 of Intel SDM Vol. 2A. */
module BranchDecoder {
  import opened Bytes

  type Flags = bv16

  const FLAGS_CF: Flags := 0x001
  const FLAGS_PF: Flags := 0x004
  const FLAGS_ZF: Flags := 0x040
  const FLAGS_SF: Flags := 0x080
  const FLAGS_OF: Flags := 0x800

  /** The flag bits that conditional branches test. */
  datatype Bits = Bits(cf: bool, pf: bool, zf: bool, sf: bool, of: bool)

  function BitsOf(f: Flags): Bits {
    Bits(f & FLAGS_CF != 0, f & FLAGS_PF != 0, f & FLAGS_ZF != 0, f & FLAGS_SF != 0, f & FLAGS_OF != 0)
  }

  const MAX_INSTRUCTION_SIZE: nat := 15

  /** Instruction bytes of an encoding that the processor accepts: conditional branches come as a
      one-byte opcode with rel8 or as a two-byte opcode with rel32. */
  predicate ValidEncoding(code: seq<int>) {
    && 1 <= |code|
    && (forall k :: 0 <= k < |code| ==> 0 <= code[k] < 256)
    && (IsShortBranch(code[0]) ==> |code| == 2)
    && (code[0] == 0x0F ==> 2 <= |code| && (0x80 <= code[1] <= 0x8F ==> |code| == 6))
  }

  predicate IsShortBranch(opcode: int) {
    0x70 <= opcode <= 0x7F || 0xE0 <= opcode <= 0xE3
  }

  // ---------------------------------------------------------------------------------------------
  // The decoder of the speculator

  datatype Decoded = Decoded(target: int, willJump: bool, isLoop: bool)

  function Signed32(bs: seq<int>): int
    requires |bs| == 4
  {
    var u := bs[0] + 0x100 * bs[1] + 0x1_0000 * bs[2] + 0x100_0000 * bs[3];
    if u >= 0x8000_0000 then u - 0x1_0000_0000 else u
  }

  /** Condition of the jump tables: the low opcode nibble selects the entry in both tables. */
  predicate TableCondition(nibble: int, b: Bits) {
    match nibble
    case 0x0 => b.of
    case 0x1 => !b.of
    case 0x2 => b.cf
    case 0x3 => !b.cf
    case 0x4 => b.zf
    case 0x5 => !b.zf
    case 0x6 => b.cf || b.zf
    case 0x7 => !b.cf && !b.zf
    case 0x8 => b.sf
    case 0x9 => !b.sf
    case 0xA => b.pf
    case 0xB => !b.pf
    case 0xC => !b.sf != !b.of
    case 0xD => !b.sf == !b.of
    case 0xE => b.zf || !b.sf != !b.of
    case _ => !b.zf && !b.sf == !b.of
  }

  /** Target offset (zero when the bytes are no conditional branch), outcome, and LOOP-ness.  A
      one-byte displacement is taken as an unsigned number. */
  function Decode(code: seq<int>, f: Flags, rcx: Word): Decoded
    requires ValidEncoding(code)
  {
    var op := code[0];
    if 0x70 <= op <= 0x7F then Decoded(code[1], TableCondition(op - 0x70, BitsOf(f)), false)
    else if op == 0xE0 then Decoded(code[1], rcx != 1 && !BitsOf(f).zf, true)
    else if op == 0xE1 then Decoded(code[1], rcx != 1 && BitsOf(f).zf, true)
    else if op == 0xE2 then Decoded(code[1], rcx != 1, true)
    else if op == 0xE3 then Decoded(code[1], rcx == 0, false)
    else if op == 0x0F && 0x80 <= code[1] <= 0x8F then
      Decoded(Signed32(code[2..]), TableCondition(code[1] - 0x80, BitsOf(f)), false)
    else Decoded(0, false, false)
  }

  // ---------------------------------------------------------------------------------------------
  // The manual

  datatype Branch = NoBranch | Branch(displacement: int, taken: bool, rcx: Word)

  /** The eight base conditions of the condition-code field; its lowest bit negates. */
  predicate BaseCondition(selector: int, b: Bits) {
    match selector
    case 0 => b.of
    case 1 => b.cf
    case 2 => b.zf
    case 3 => b.cf || b.zf
    case 4 => b.sf
    case 5 => b.pf
    case 6 => b.sf != b.of
    case _ => b.zf || b.sf != b.of
  }

  predicate ConditionCode(cc: int, b: Bits) {
    BaseCondition(cc / 2, b) != (cc % 2 == 1)
  }

  function SignExtend8(b: int): int {
    if b >= 0x80 then b - 0x100 else b
  }

  function Decrement(rcx: Word): Word {
    if rcx == 0 then WORD_LIMIT - 1 else rcx - 1
  }

  /** LOOP decrements the count first and compares the decremented count with zero. */
  function ManualBranch(code: seq<int>, f: Flags, rcx: Word): Branch
    requires ValidEncoding(code)
  {
    var op := code[0];
    var count := Decrement(rcx);
    if 0x70 <= op <= 0x7F then Branch(SignExtend8(code[1]), ConditionCode(op - 0x70, BitsOf(f)), rcx)
    else if op == 0xE0 then Branch(SignExtend8(code[1]), count != 0 && !BitsOf(f).zf, count)
    else if op == 0xE1 then Branch(SignExtend8(code[1]), count != 0 && BitsOf(f).zf, count)
    else if op == 0xE2 then Branch(SignExtend8(code[1]), count != 0, count)
    else if op == 0xE3 then Branch(SignExtend8(code[1]), rcx == 0, rcx)
    else if op == 0x0F && 0x80 <= code[1] <= 0x8F then
      Branch(Signed32(code[2..]), ConditionCode(code[1] - 0x80, BitsOf(f)), rcx)
    else NoBranch
  }

  /** A displacement the decoder reads as the processor does. */
  predicate FaithfulDisplacement(code: seq<int>)
    requires ValidEncoding(code)
  {
    IsShortBranch(code[0]) ==> code[1] < 0x80
  }

  lemma TableMatchesManual(cc: int, b: Bits)
    requires 0 <= cc < 16
    ensures TableCondition(cc, b) == ConditionCode(cc, b)
  {}

  lemma DecodedCondition(code: seq<int>, f: Flags, rcx: Word)
    requires ValidEncoding(code)
    requires 0x70 <= code[0] <= 0x7F || (code[0] == 0x0F && 0x80 <= code[1] <= 0x8F)
    ensures Decode(code, f, rcx).willJump == ManualBranch(code, f, rcx).taken
  {
    var nibble := if code[0] == 0x0F then code[1] - 0x80 else code[0] - 0x70;
    TableMatchesManual(nibble, BitsOf(f));
    assert Decode(code, f, rcx).willJump == TableCondition(nibble, BitsOf(f));
    assert ManualBranch(code, f, rcx).taken == ConditionCode(nibble, BitsOf(f));
  }

  /** The decoder predicts outcome and count of every conditional branch as the manual does. */
  lemma DecodedOutcome(code: seq<int>, f: Flags, rcx: Word)
    requires ValidEncoding(code) && ManualBranch(code, f, rcx).Branch?
    ensures Decode(code, f, rcx).willJump == ManualBranch(code, f, rcx).taken
    ensures (if Decode(code, f, rcx).isLoop then Decrement(rcx) else rcx) == ManualBranch(code, f, rcx).rcx
  {
    if code[0] < 0xE0 {
      DecodedCondition(code, f, rcx);
    }
  }

  /** The decoder finds exactly the conditional branches of the manual that have a non-zero
      displacement, and reads the displacement as the manual does exactly when it is not a negative
      rel8. */
  lemma DecodedTarget(code: seq<int>, f: Flags, rcx: Word)
    requires ValidEncoding(code)
    ensures match ManualBranch(code, f, rcx)
            case NoBranch => Decode(code, f, rcx).target == 0
            case Branch(displacement, _, _) =>
              && (Decode(code, f, rcx).target == 0 <==> displacement == 0)
              && (Decode(code, f, rcx).target == displacement <==> FaithfulDisplacement(code))
  {}

  /** A taken `jz .-2` (74 FE) goes back to itself, yet the decoder sends it 254 bytes forward. */
  lemma BackwardShortBranchMisread(f: Flags, rcx: Word)
    ensures ValidEncoding([0x74, 0xFE])
    ensures Decode([0x74, 0xFE], f, rcx).target == 254
    ensures ManualBranch([0x74, 0xFE], f, rcx).Branch? && ManualBranch([0x74, 0xFE], f, rcx).displacement == -2
  {}
}
