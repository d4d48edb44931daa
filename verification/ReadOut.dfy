/** The resumable read-out of measurements: the kernel module prints them, last input first, into
buffers of limited size; the executor reads buffer after buffer and files each reading under its
input and repetition.
*/
module ReadOut {
  import opened Common

  datatype Reading = Reading(htrace: nat, pfc: seq<nat>)

  datatype Line = Measured(reading: Reading) | Done

  const PAGE: nat := 4096
  const RESERVED: nat := 128

  function Digits(n: nat): (r: nat)
    ensures r >= 1
  {
    if n < 10 then 1 else 1 + Digits(n / 10)
  }

  function DigitsOf(ns: seq<nat>): nat {
    if |ns| == 0 then 0 else Digits(ns[0]) + 1 + DigitsOf(ns[1..])
  }

  /** Printed length: decimal numbers separated by commas, and a newline. */
  function Width(r: Reading): (w: nat)
    ensures w > 0
  {
    Digits(r.htrace) + 1 + DigitsOf(r.pfc)
  }

  /** The lines for the measurements from index `from` down to just above `to`. */
  function Lines(ms: seq<Reading>, from: int, to: int): (r: seq<Line>)
    requires -1 <= to <= from < |ms|
    ensures |r| == from - to
  {
    seq(from - to, j requires 0 <= j < from - to => Measured(ms[from - j]))
  }

  /** Printed length of the measurements from index `from` down to just above `to`. */
  function PrintedWidth(ms: seq<Reading>, from: int, to: int): (w: nat)
    requires -1 <= to <= from < |ms|
    decreases from - to
  {
    if to == from then 0 else PrintedWidth(ms, from, to + 1) + Width(ms[to + 1])
  }

  /** A buffer stops at `to`: the space was not used up before its last line, and it was afterwards unless
      all measurements are printed. */
  ghost predicate StopsFull(ms: seq<Reading>, from: int, to: int)
    requires -1 <= to < from < |ms|
  {
    && PrintedWidth(ms, from, to + 1) < PAGE - RESERVED
    && (to >= 0 ==> PrintedWidth(ms, from, to) >= PAGE - RESERVED)
  }

  /** The kernel module.  The reading of an input may differ from run to run and from position to
      position; a run may fail. */
  class KernelModule<Input> {
    const read: (nat, nat, Input) -> Reading
    const fails: nat -> bool
    var inputs: seq<Input>
    var measurements: seq<Reading>
    var nextMeasurementId: int
    var runs: nat

    /** The measurements of one run. */
    function Run(run: nat): (r: seq<Reading>)
      reads this`inputs
      ensures |r| == |inputs|
    {
      var loaded := inputs;
      seq(|loaded|, k requires 0 <= k < |loaded| => read(run, k, loaded[k]))
    }

    predicate Valid()
      reads this
    {
      && -1 <= nextMeasurementId < |inputs|
      && (nextMeasurementId >= 0 ==> runs > 0 && measurements == Run(runs - 1))
    }

    constructor (read: (nat, nat, Input) -> Reading, fails: nat -> bool)
      ensures this.read == read && this.fails == fails && Valid() && nextMeasurementId < 0
    {
      this.read, this.fails := read, fails;
      inputs, measurements, nextMeasurementId, runs := [], [], -1, 0;
    }

    method LoadInputs(inputs: seq<Input>)
      requires Valid() && nextMeasurementId < 0
      modifies this`inputs
      ensures Valid() && this.inputs == inputs
    {
      this.inputs := inputs;
    }

    /** Measure all inputs. */
    method TraceTestCase() returns (err: bool)
      requires Valid() && nextMeasurementId < 0
      modifies this`measurements, this`runs
      ensures Valid() && runs == old(runs) + 1 && err == fails(old(runs))
      ensures !err ==> measurements == Run(old(runs))
    {
      err := fails(runs);
      if !err { measurements := Run(runs); }
      runs := runs + 1;
    }

    /** Fill one buffer; `next` of the next call is where this one ran out of space. */
    method TraceShow() returns (buf: Option<seq<Line>>)
      requires Valid() && |inputs| > 0
      modifies this`measurements, this`runs, this`nextMeasurementId
      ensures Valid()
      ensures runs == if old(nextMeasurementId) < 0 then old(runs) + 1 else old(runs)
      ensures buf.None? <==> old(nextMeasurementId) < 0 && fails(old(runs))
      ensures buf.None? ==> nextMeasurementId < 0
      ensures buf.Some? ==> Shows(this, old(nextMeasurementId), buf.value)
    {
      hide Width;
      if nextMeasurementId < 0 {
        var err := TraceTestCase();
        if err { return None; }
        nextMeasurementId := |inputs| - 1;
      }
      ghost var from, started := nextMeasurementId, runs;
      var count: nat, out: seq<Line> := 0, [];
      while nextMeasurementId >= 0
        invariant -1 <= nextMeasurementId <= from && runs == started && measurements == Run(started - 1)
        invariant out == Lines(measurements, from, nextMeasurementId)
        invariant count > 0 ==> nextMeasurementId < from
        invariant count == PrintedWidth(measurements, from, nextMeasurementId)
        invariant nextMeasurementId < from ==> PrintedWidth(measurements, from, nextMeasurementId + 1) < PAGE - RESERVED
      {
        if count >= PAGE - RESERVED { return Some(out); }
        var m := measurements[nextMeasurementId];
        out := out + [Measured(m)];
        count := count + Width(m);
        nextMeasurementId := nextMeasurementId - 1;
      }
      return Some(out + [Done]);
    }
  }

  // ---------------------------------------------------------------------------------------------
  // The page of a buffer

  const U64: nat := 0x1_0000_0000_0000_0000
  const N_COUNTERS: nat := 5

  /** A hardware trace and five counters of 64 bits. */
  predicate Printable(r: Reading) {
    r.htrace < U64 && |r.pfc| == N_COUNTERS && forall k :: 0 <= k < N_COUNTERS ==> r.pfc[k] < U64
  }

  function Pow10(k: nat): (r: nat)
    ensures r > 0
  {
    if k == 0 then 1 else 10 * Pow10(k - 1)
  }

  lemma Pow10Values()
    ensures Pow10(11) == 100_000_000_000 && Pow10(12) == 1_000_000_000_000
    ensures Pow10(19) < U64 <= Pow10(20)
  {
    assert Pow10(4) == 10_000;
    assert Pow10(8) == 100_000_000;
    assert Pow10(12) == 1_000_000_000_000;
    assert Pow10(16) == 10_000_000_000_000_000;
  }

  /** Decimal numbers grow by a digit with every power of ten. */
  lemma {:induction false} DigitsByPower(n: nat, k: nat)
    requires k > 0
    ensures n < Pow10(k) <==> Digits(n) <= k
    decreases k
  {
    if n >= 10 && k > 1 { DigitsByPower(n / 10, k - 1); }
  }

  lemma {:induction false} DigitsOfBelow(ns: seq<nat>)
    requires forall k :: 0 <= k < |ns| ==> ns[k] < U64
    ensures DigitsOf(ns) <= 21 * |ns|
  {
    if |ns| > 0 {
      Pow10Values();
      DigitsByPower(ns[0], 20);
      DigitsOfBelow(ns[1..]);
    }
  }

  /** A line fits the space that is held back for it. */
  lemma LineFits(r: Reading)
    requires Printable(r)
    ensures Width(r) <= 126 < RESERVED
  {
    Pow10Values();
    DigitsByPower(r.htrace, 20);
    DigitsOfBelow(r.pfc);
  }

  lemma {:induction false} WidthFrom(ms: seq<Reading>, from: int, middle: int, to: int)
    requires -1 <= to <= middle <= from < |ms|
    ensures PrintedWidth(ms, from, to) == PrintedWidth(ms, from, middle) + PrintedWidth(ms, middle, to)
    decreases middle - to
  {
    if to < middle { WidthFrom(ms, from, middle, to + 1); }
  }

  /** The bytes that a call writes: its lines, the end marker of the last call, and a terminating zero. */
  function PageBytes(ms: seq<Reading>, from: int, to: int): nat
    requires -1 <= to <= from < |ms|
  {
    PrintedWidth(ms, from, to) + (if to < 0 then |"done\n"| else 0) + 1
  }

  /** The last measurement still goes into the buffer, behind the others, but the end marker does not. */
  predicate Overruns(ms: seq<Reading>, from: int)
    requires 0 <= from < |ms|
  {
    var used := PrintedWidth(ms, from, 0);
    used < PAGE - RESERVED && used + Width(ms[0]) + |"done\n"| >= PAGE
  }

  /** A call stays within its page if and only if it is not one that prints the last measurement too late:
      the space held back for a line does not cover the end marker as well. */
  lemma CallStaysInPage(ms: seq<Reading>, from: int, to: int)
    requires -1 <= to < from < |ms| && StopsFull(ms, from, to)
    requires forall k :: 0 <= k < |ms| ==> Printable(ms[k])
    ensures PageBytes(ms, from, to) <= PAGE <==> !Overruns(ms, from)
  {
    LineFits(ms[to + 1]);
    hide Width;
    if to >= 0 { WidthFrom(ms, from, to, 0); }
  }

  function Wide(): Reading { Reading(U64 - 1, [U64 - 1, U64 - 1, U64 - 1, U64 - 1, U64 - 1]) }

  function Middle(): Reading { Reading(U64 - 1, [U64 - 1, Pow10(11), 1, 1, 1]) }

  lemma WideWidth()
    ensures Printable(Wide()) && Width(Wide()) == 126
    ensures Printable(Middle()) && Width(Middle()) == 61
  {
    Pow10Values();
    DigitsByPower(U64 - 1, 19);
    DigitsByPower(U64 - 1, 20);
    DigitsByPower(Pow10(11), 11);
    DigitsByPower(Pow10(11), 12);
    DigitsByPower(1, 1);
    hide Digits, Pow10;
    var w, m := Wide().pfc, Middle().pfc;
    assert w[1..] == [U64 - 1, U64 - 1, U64 - 1, U64 - 1] && m[1..] == [Pow10(11), 1, 1, 1];
    assert w[1..][1..] == [U64 - 1, U64 - 1, U64 - 1] && m[1..][1..] == [1, 1, 1];
    assert w[1..][1..][1..] == [U64 - 1, U64 - 1] && m[1..][1..][1..] == [1, 1];
    assert w[1..][1..][1..][1..] == [U64 - 1] && m[1..][1..][1..][1..] == [1];
  }

  lemma {:induction false} WidthOfEqual(ms: seq<Reading>, from: int, to: int, r: Reading)
    requires -1 <= to <= from < |ms| && forall k :: to < k <= from ==> ms[k] == r
    ensures PrintedWidth(ms, from, to) == (from - to) * Width(r)
    decreases from - to
  {
    if to < from { WidthOfEqual(ms, from, to + 1, r); }
  }

  /** Thirty-three measurements that a call prints beyond its page: the last line starts at byte 3967, and the
      end marker with its terminating zero reaches byte 4099. */
  lemma EndMarkerOverruns()
    ensures exists ms: seq<Reading> ::
              && |ms| == 33 && (forall k :: 0 <= k < |ms| ==> Printable(ms[k]))
              && PrintedWidth(ms, 32, 0) == 3967 && Overruns(ms, 32) && PageBytes(ms, 32, -1) == 4099
  {
    WideWidth();
    hide Width, Printable, Wide, Middle;
    var ms := seq(32, _ => Wide()) + [Middle()];
    assert ms[32] == Middle() && forall k :: 0 <= k < 32 ==> ms[k] == Wide();
    assert PrintedWidth(ms, 32, 31) == Width(Middle());
    WidthFrom(ms, 32, 31, -1);
    WidthFrom(ms, 32, 31, 0);
    WidthOfEqual(ms, 31, -1, Wide());
    WidthOfEqual(ms, 31, 0, Wide());
  }

  // ---------------------------------------------------------------------------------------------
  // The executor

  datatype Yield = Yield(rep: nat, input: nat, reading: Reading)

  /** The k-th reading that the module prints for `total` loaded inputs, counted over whole runs. */
  function Printed<Input>(km: KernelModule<Input>, firstRun: nat, k: nat): Reading
    requires |km.inputs| > 0
    reads km`inputs
  {
    var total := |km.inputs|;
    km.Run(firstRun + k / total)[total - 1 - k % total]
  }

  /** The k-th reading belongs to repetition k / n, and the inputs count down. */
  function Filed(n: nat, k: nat, reading: Reading): Yield
    requires n > 0
  {
    Yield(k / n, n - 1 - k % n, reading)
  }

  /** What the executor reads k-th, for `n` inputs. */
  ghost predicate ReadInOrder<Input>(km: KernelModule<Input>, firstRun: nat, n: nat, ys: seq<Yield>)
    requires |km.inputs| > 0 && n > 0
    reads km`inputs
  {
    forall k {:trigger ys[k]} :: 0 <= k < |ys| ==>
      ys[k] == Filed(n, k, Printed(km, firstRun, k))
  }

  /** Read on to the end of the output. */
  method RewindKmOutputToEnd<Input>(km: KernelModule<Input>)
    requires km.Valid() && |km.inputs| > 0
    modifies km`measurements, km`runs, km`nextMeasurementId
    ensures km.Valid() && km.nextMeasurementId < 0
  {
    var finished := false;
    while !finished
      invariant km.Valid() && (finished ==> km.nextMeasurementId < 0)
      decreases !finished, if km.nextMeasurementId < 0 then |km.inputs| else km.nextMeasurementId
    {
      var output := km.TraceShow();
      finished := output.None? || Done in output.value;
      assert output.Some? && km.nextMeasurementId < 0 ==> output.value[|output.value| - 1] == Done;
    }
  }

  lemma AtLeast(t: int, d: nat)
    ensures t >= 1 ==> t * d >= d
  {}

  lemma DivMod(q: nat, d: nat, r: nat)
    requires r < d
    ensures (q * d + r) / d == q && (q * d + r) % d == r
  {
    var k := q * d + r;
    AtLeast(k / d - q, d);
    AtLeast(q - k / d, d);
  }

  /** The counters of the executor agree with the number of readings so far. */
  predicate Counted(n: nat, rep: nat, input: nat, k: nat) {
    input < n && k == rep * n + (n - 1 - input)
  }

  /** The part of a buffer before the end marker. */
  ghost predicate Parsed(lines: seq<Line>, n: nat, ys: seq<Yield>, zs: seq<Yield>)
    requires n > 0
  {
    && ys <= zs && |zs| <= |ys| + |lines|
    && forall k {:trigger zs[k]} :: |ys| <= k < |zs| ==>
         lines[k - |ys|] == Measured(zs[k].reading) && zs[k] == Filed(n, k, zs[k].reading)
  }

  lemma OneMoreParsed(lines: seq<Line>, n: nat, ys: seq<Yield>, zs: seq<Yield>, y: Yield)
    requires n > 0 && Parsed(lines, n, ys, zs) && |zs| < |ys| + |lines|
    requires lines[|zs| - |ys|] == Measured(y.reading)
    requires y == Filed(n, |zs|, y.reading)
    ensures Parsed(lines, n, ys, zs + [y])
  {
    hide Filed;
  }

  predicate IsZero(line: Line) {
    line.Measured? && line.reading.htrace == 0
  }

  /** Parse one buffer.  A zero hardware trace is an error, except in architectural mode. */
  method ParseLines(lines: seq<Line>, n: nat, archMode: bool, rep: nat, input: nat, ys: seq<Yield>)
    returns (bad: bool, finished: bool, rep': nat, input': nat, zs: seq<Yield>)
    requires Counted(n, rep, input, |ys|)
    ensures Counted(n, rep', input', |zs|) && Parsed(lines, n, ys, zs)
    ensures bad ==> !archMode && |zs| < |ys| + |lines| && IsZero(lines[|zs| - |ys|])
    ensures archMode || forall k :: |ys| <= k < |zs| ==> zs[k].reading.htrace != 0
    ensures finished ==> |zs| < |ys| + |lines| && lines[|zs| - |ys|] == Done
    ensures !bad && !finished ==> |zs| == |ys| + |lines|
  {
    bad, finished, rep', input', zs := false, false, rep, input, ys;
    for l := 0 to |lines|
      invariant !bad && !finished && |zs| == |ys| + l
      invariant Counted(n, rep', input', |zs|) && Parsed(lines, n, ys, zs)
      invariant archMode || forall k :: |ys| <= k < |zs| ==> zs[k].reading.htrace != 0
    {
      match lines[l]
      case Done =>
        finished := true;
        return;
      case Measured(reading) =>
        if reading.htrace == 0 && !archMode {
          bad := true;
          return;
        }
        DivMod(rep', n, n - 1 - input');
        OneMoreParsed(lines, n, ys, zs, Yield(rep', input', reading));
        zs := zs + [Yield(rep', input', reading)];
        if input' == 0 {
          rep', input' := rep' + 1, n - 1;
        } else {
          input' := input' - 1;
        }
    }
  }

  /** After `batch` finished runs of `total` inputs each, a module whose next measurement is `next` is
      about to print reading `k`. */
  ghost predicate At(total: nat, firstRun: nat, batch: nat, runs: nat, next: int, k: nat) {
    && -1 <= next < total
    && if next < 0 then runs == firstRun + batch && k == batch * total
       else runs == firstRun + batch + 1 && k == batch * total + (total - 1 - next)
  }

  ghost predicate AtReading<Input>(km: KernelModule<Input>, firstRun: nat, batch: nat, k: nat)
    reads km
  {
    km.Valid() && |km.inputs| > 0 && At(|km.inputs|, firstRun, batch, km.runs, km.nextMeasurementId, k)
  }

  /** What one call of the module prints, when it is at `next`: whole lines, until the space is used up. */
  ghost predicate Shows<Input>(km: KernelModule<Input>, next: int, lines: seq<Line>)
    reads km
    requires km.Valid() && next < |km.inputs|
  {
    var from := if next < 0 then |km.inputs| - 1 else next;
    && km.nextMeasurementId < from && km.runs > 0
    && StopsFull(km.Run(km.runs - 1), from, km.nextMeasurementId)
    && lines == Lines(km.Run(km.runs - 1), from, km.nextMeasurementId) + if km.nextMeasurementId < 0 then [Done] else []
  }

  lemma PrintedAt<Input>(km: KernelModule<Input>, firstRun: nat, batch: nat, from: nat, l: nat)
    requires l <= from < |km.inputs|
    ensures var k := batch * |km.inputs| + (|km.inputs| - 1 - from) + l;
            Printed(km, firstRun, k) == km.Run(firstRun + batch)[from - l]
  {
    DivMod(batch, |km.inputs|, |km.inputs| - 1 - from + l);
  }

  lemma BufferInOrder<Input>(km: KernelModule<Input>, firstRun: nat, n: nat, batch: nat, from: nat,
                             lines: seq<Line>, ys: seq<Yield>, zs: seq<Yield>)
    requires n > 0 && km.Valid() && -1 <= km.nextMeasurementId < from < |km.inputs| && km.runs == firstRun + batch + 1
    requires lines == Lines(km.Run(km.runs - 1), from, km.nextMeasurementId)
                      + if km.nextMeasurementId < 0 then [Done] else []
    requires |ys| == batch * |km.inputs| + (|km.inputs| - 1 - from)
    requires ReadInOrder(km, firstRun, n, ys) && Parsed(lines, n, ys, zs)
    ensures ReadInOrder(km, firstRun, n, zs)
  {
    hide Filed, Printed;
    forall k | 0 <= k < |zs|
      ensures zs[k] == Filed(n, k, Printed(km, firstRun, k))
    {
      if k < |ys| {
        assert zs[k] == ys[k];
      } else {
        var l := k - |ys|;
        assert zs[k].reading == lines[l].reading;
        assert lines[l] == Measured(km.Run(km.runs - 1)[from - l]);
        PrintedAt(km, firstRun, batch, from, l);
      }
    }
  }

  /** One buffer continues the readings, and it ends with the run exactly when its end marker is found. */
  lemma BufferContinues<Input>(km: KernelModule<Input>, firstRun: nat, n: nat, batch: nat, runs: nat, next: int,
                               lines: seq<Line>, ys: seq<Yield>, zs: seq<Yield>, finished: bool)
    requires n > 0 && km.Valid() && |km.inputs| > 0 && At(|km.inputs|, firstRun, batch, runs, next, |ys|)
    requires km.runs == (if next < 0 then runs + 1 else runs) && Shows(km, next, lines)
    requires ReadInOrder(km, firstRun, n, ys) && Parsed(lines, n, ys, zs)
    requires finished ==> |zs| < |ys| + |lines| && lines[|zs| - |ys|] == Done
    requires !finished ==> |zs| == |ys| + |lines|
    ensures ReadInOrder(km, firstRun, n, zs)
    ensures finished <==> km.nextMeasurementId < 0
    ensures next >= 0 ==> km.nextMeasurementId < next
    ensures AtReading(km, firstRun, if finished then batch + 1 else batch, |zs|)
  {
    hide ReadInOrder;
    var from := if next < 0 then |km.inputs| - 1 else next;
    BufferInOrder(km, firstRun, n, batch, from, lines, ys, zs);
    assert |lines| == from - km.nextMeasurementId + if km.nextMeasurementId < 0 then 1 else 0;
    assert |zs| > |ys| ==> lines[|zs| - 1 - |ys|] == Measured(zs[|zs| - 1].reading);
  }

  /** No reading in a range is zero, unless zeros are allowed. */
  ghost predicate ReadingsValid<Input>(km: KernelModule<Input>, firstRun: nat, archMode: bool, from: nat, to: nat)
    requires |km.inputs| > 0
    reads km`inputs
  {
    archMode || forall k :: from <= k < to ==> Printed(km, firstRun, k).htrace != 0
  }

  /** The readings of one run, up to a reading. */
  ghost predicate ValidSoFar<Input>(km: KernelModule<Input>, firstRun: nat, archMode: bool, batch: nat, k: nat)
    requires |km.inputs| > 0
    reads km`inputs
  {
    ReadingsValid(km, firstRun, archMode, batch * |km.inputs|, k)
  }

  ghost predicate RunValid<Input>(km: KernelModule<Input>, firstRun: nat, archMode: bool, batch: nat)
    requires |km.inputs| > 0
    reads km`inputs
  {
    ReadingsValid(km, firstRun, archMode, batch * |km.inputs|, (batch + 1) * |km.inputs|)
  }

  lemma RunIsValid<Input>(km: KernelModule<Input>, firstRun: nat, archMode: bool, batch: nat, k: nat)
    requires km.nextMeasurementId < 0
    ensures AtReading(km, firstRun, batch, k) ==> ValidSoFar(km, firstRun, archMode, batch, k)
    ensures AtReading(km, firstRun, batch + 1, k) ==>
              (ValidSoFar(km, firstRun, archMode, batch, k) <==> RunValid(km, firstRun, archMode, batch))
  {}

  lemma BufferValid<Input>(km: KernelModule<Input>, firstRun: nat, n: nat, archMode: bool, batch: nat, ys: seq<Yield>,
                           zs: seq<Yield>)
    requires n > 0 && |km.inputs| > 0 && ReadInOrder(km, firstRun, n, zs) && |ys| <= |zs|
    requires archMode || forall k :: |ys| <= k < |zs| ==> zs[k].reading.htrace != 0
    requires ValidSoFar(km, firstRun, archMode, batch, |ys|)
    ensures ValidSoFar(km, firstRun, archMode, batch, |zs|)
  {
    hide Printed;
    forall k | |ys| <= k < |zs| ensures Printed(km, firstRun, k) == zs[k].reading {}
  }

  /** A zero line is a zero reading of the current run. */
  lemma BadReading<Input>(km: KernelModule<Input>, firstRun: nat, batch: nat, runs: nat, next: int, lines: seq<Line>,
                          k: nat, l: nat)
    requires km.Valid() && |km.inputs| > 0 && At(|km.inputs|, firstRun, batch, runs, next, k)
    requires km.runs == (if next < 0 then runs + 1 else runs) && Shows(km, next, lines)
    requires l < |lines| && IsZero(lines[l])
    ensures !RunValid(km, firstRun, false, batch)
  {
    var from := if next < 0 then |km.inputs| - 1 else next;
    assert lines[l] == Measured(km.Run(km.runs - 1)[from - l]);
    PrintedAt(km, firstRun, batch, from, l);
    var at := batch * |km.inputs| + (|km.inputs| - 1 - from) + l;
    assert batch * |km.inputs| <= at < (batch + 1) * |km.inputs|;
    assert Printed(km, firstRun, at).htrace == 0;
  }

  lemma RunLength<Input>(km: KernelModule<Input>, firstRun: nat, batch: nat, perRun: nat, n: nat, k: nat)
    requires AtReading(km, firstRun, batch, k) && km.nextMeasurementId < 0 && |km.inputs| == perRun * n
    ensures k == (batch * perRun) * n && km.runs == firstRun + batch
    ensures n > 0 ==> Counted(n, batch * perRun, n - 1, k)
  {}

  lemma RunsAt<Input>(km: KernelModule<Input>, firstRun: nat, batch: nat, k: nat)
    requires AtReading(km, firstRun, batch, k) && km.nextMeasurementId < 0
    ensures km.runs == firstRun + batch && k == batch * |km.inputs|
  {}

  /** At the end of a run, the executor has counted whole repetitions: its own assertion holds. */
  lemma WholeRepetitions(n: nat, rep: nat, input: nat, whole: nat)
    requires Counted(n, rep, input, whole * n)
    ensures input == n - 1 && rep == whole
  {
    DivMod(rep, n, n - 1 - input);
    DivMod(whole, n, 0);
  }

  lemma NextBatchFits(batch: nat, perRun: nat, nReps: nat)
    requires perRun > 0 && nReps % perRun == 0 && batch * perRun < nReps
    ensures (batch + 1) * perRun <= nReps
  {
    var m := nReps / perRun;
    assert nReps == m * perRun;
    AtLeast(batch - m + 1, perRun);
  }

  /** Read one run of the module to its end. */
  method ReadRun<Input>(km: KernelModule<Input>, n: nat, archMode: bool, rep: nat, ys: seq<Yield>,
                        ghost firstRun: nat, ghost batch: nat, ghost perRun: nat)
    returns (ok: bool, rep': nat, zs: seq<Yield>)
    requires n > 0 && |km.inputs| == perRun * n
    requires rep == batch * perRun && AtReading(km, firstRun, batch, |ys|) && km.nextMeasurementId < 0
    requires ReadInOrder(km, firstRun, n, ys)
    modifies km`measurements, km`runs, km`nextMeasurementId
    ensures km.Valid() && km.nextMeasurementId < 0
    ensures ok ==> rep' == (batch + 1) * perRun && AtReading(km, firstRun, batch + 1, |zs|)
    ensures ok ==> ReadInOrder(km, firstRun, n, zs)
    ensures ok <==> !km.fails(firstRun + batch) && RunValid(km, firstRun, archMode, batch)
  {
    hide Parsed, ReadInOrder, Counted, At, ValidSoFar, RunValid, Shows;
    rep', zs := rep, ys;
    var input: nat, finished: bool := n - 1, false;
    RunLength(km, firstRun, batch, perRun, n, |zs|);
    RunIsValid(km, firstRun, archMode, batch, |zs|);
    while !finished
      invariant Counted(n, rep', input, |zs|) && ReadInOrder(km, firstRun, n, zs)
      invariant AtReading(km, firstRun, if finished then batch + 1 else batch, |zs|)
      invariant finished ==> km.nextMeasurementId < 0
      invariant finished || km.nextMeasurementId >= 0 ==> !km.fails(firstRun + batch)
      invariant ValidSoFar(km, firstRun, archMode, batch, |zs|)
      decreases !finished, if km.nextMeasurementId < 0 then |km.inputs| else km.nextMeasurementId
    {
      if km.nextMeasurementId < 0 { RunsAt(km, firstRun, batch, |zs|); }
      ghost var runs, next := km.runs, km.nextMeasurementId;
      var output := km.TraceShow();
      if output.None? { return false, rep', zs; }
      var bad, more;
      bad, finished, rep', input, more := ParseLines(output.value, n, archMode, rep', input, zs);
      if bad {
        BadReading(km, firstRun, batch, runs, next, output.value, |zs|, |more| - |zs|);
        RewindKmOutputToEnd(km);
        return false, rep', more;
      }
      BufferContinues(km, firstRun, n, batch, runs, next, output.value, zs, more, finished);
      BufferValid(km, firstRun, n, archMode, batch, zs, more);
      zs := more;
    }
    RunIsValid(km, firstRun, archMode, batch, |zs|);
    RunLength(km, firstRun, batch + 1, perRun, n, |zs|);
    WholeRepetitions(n, rep', input, (batch + 1) * perRun);
    return true, rep', zs;
  }

  /** A number of runs succeed. */
  ghost predicate RunsSucceed<Input>(km: KernelModule<Input>, firstRun: nat, runs: nat) {
    forall r :: firstRun <= r < firstRun + runs ==> !km.fails(r)
  }

  lemma NothingRead<Input>(km: KernelModule<Input>, firstRun: nat, n: nat, archMode: bool)
    requires n > 0 && |km.inputs| > 0
    ensures RunsSucceed(km, firstRun, 0) && ReadingsValid(km, firstRun, archMode, 0, 0) &&
            ReadInOrder(km, firstRun, n, [])
  {}

  /** One more run: it decides whether everything up to its end succeeds, and no later run can mend it. */
  lemma OneMoreRun<Input>(km: KernelModule<Input>, firstRun: nat, archMode: bool, batch: nat, perRun: nat, n: nat,
                          nReps: nat)
    requires perRun > 0 && n > 0 && |km.inputs| == perRun * n && nReps % perRun == 0 && batch * perRun < nReps
    requires |km.inputs| > 0
    requires RunsSucceed(km, firstRun, batch) && ReadingsValid(km, firstRun, archMode, 0, batch * |km.inputs|)
    ensures var total := |km.inputs|;
            var valid := RunValid(km, firstRun, archMode, batch);
            && (!km.fails(firstRun + batch) <==> RunsSucceed(km, firstRun, batch + 1))
            && (valid <==> ReadingsValid(km, firstRun, archMode, 0, (batch + 1) * total))
            && (km.fails(firstRun + batch) ==> !RunsSucceed(km, firstRun, nReps / perRun))
            && (!valid ==> !ReadingsValid(km, firstRun, archMode, 0, nReps * n))
  {
    var total := |km.inputs|;
    NextBatchFits(batch, perRun, nReps);
    RepBelow(perRun, batch * perRun, nReps / perRun);
    DivMod(batch, perRun, 0);
    assert (batch + 1) * total <= nReps * n by {
      assert (batch + 1) * total == ((batch + 1) * perRun) * n;
      AtLeastTimes((batch + 1) * perRun, nReps, n);
    }
    assert 0 <= batch * total <= (batch + 1) * total;
    hide Printed;
  }

  lemma AtLeastTimes(x: nat, y: nat, k: nat)
    requires x <= y
    ensures x * k <= y * k
  {}

  /** Read all repetitions of `n` inputs: this succeeds exactly when every run does and, outside
      architectural mode, no reading is zero.  Whatever the outcome, the module is left between two runs. */
  method ReadTrace<Input>(km: KernelModule<Input>, nReps: nat, n: nat, archMode: bool, ghost perRun: nat)
    returns (ok: bool, ys: seq<Yield>)
    requires km.Valid() && km.nextMeasurementId < 0
    requires n > 0 && perRun > 0 && |km.inputs| == perRun * n && nReps % perRun == 0
    modifies km`measurements, km`runs, km`nextMeasurementId
    ensures km.Valid() && km.nextMeasurementId < 0
    ensures ok ==> |ys| == nReps * n && ReadInOrder(km, old(km.runs), n, ys)
    ensures ok ==> km.runs == old(km.runs) + nReps / perRun
    ensures ok <==> (RunsSucceed(km, old(km.runs), nReps / perRun)
                     && ReadingsValid(km, old(km.runs), archMode, 0, nReps * n))
  {
    hide ReadingsValid, RunsSucceed, ReadInOrder;
    ys := [];
    ghost var firstRun, batch := km.runs, 0;
    NothingRead(km, firstRun, n, archMode);
    var rep := 0;
    ok := true;
    while rep < nReps
      invariant RunsSucceed(km, firstRun, batch) && ReadingsValid(km, firstRun, archMode, 0, batch * |km.inputs|)
      invariant ok && AtReading(km, firstRun, batch, |ys|) && km.nextMeasurementId < 0
      invariant rep == batch * perRun <= nReps
      invariant ReadInOrder(km, firstRun, n, ys)
      decreases nReps - rep
    {
      NextBatchFits(batch, perRun, nReps);
      OneMoreRun(km, firstRun, archMode, batch, perRun, n, nReps);
      ok, rep, ys := ReadRun(km, n, archMode, rep, ys, firstRun, batch, perRun);
      if !ok { return; }
      batch := batch + 1;
    }
    DivMod(batch, perRun, 0);
    RunLength(km, firstRun, batch, perRun, n, |ys|);
    RunsAt(km, firstRun, batch, |ys|);
  }

  lemma {:induction false} RepeatAt<T>(s: seq<T>, k: nat, b: nat, i: nat)
    requires b < k && i < |s|
    ensures b * |s| + i < |Repeat(s, k)| && Repeat(s, k)[b * |s| + i] == s[i]
  {
    var before := Repeat(s, k - 1);
    if b < k - 1 {
      RepeatAt(s, k - 1, b, i);
      assert (before + s)[b * |s| + i] == before[b * |s| + i];
    } else {
      assert (before + s)[|before| + i] == s[i];
    }
  }

  /** How often the executor loads every input at once. */
  function PerRun(n: nat, nReps: nat): (b: nat)
    ensures b > 0 && nReps % b == 0
  {
    if nReps % 5 != 0 || n >= 1000 then 1 else 5
  }

  /** The run and the position in it that measure an input for a repetition. */
  function Sample<Input>(km: KernelModule<Input>, firstRun: nat, inputs: seq<Input>, perRun: nat, rep: nat,
                         i: nat): Reading
    requires perRun > 0 && i < |inputs|
  {
    var later: nat := perRun - 1 - rep % perRun;
    km.read(firstRun + rep / perRun, later * |inputs| + i, inputs[i])
  }

  /** The number of the reading of input i for a repetition. */
  function Index(n: nat, rep: nat, i: nat): nat
    requires i < n
  {
    rep * n + (n - 1 - i)
  }

  lemma IndexInverts(n: nat, k: nat, rep: nat, i: nat)
    requires i < n
    ensures Index(n, rep, i) == k <==> rep == k / n && i == n - 1 - k % n
  {
    DivMod(rep, n, n - 1 - i);
  }

  lemma IndexBelow(n: nat, rep: nat, i: nat, nReps: nat)
    requires i < n && rep < nReps
    ensures Index(n, rep, i) < nReps * n
  {
    AtLeast(nReps - rep, n);
  }

  lemma PositionInRun(n: nat, perRun: nat, rep: nat, i: nat)
    requires perRun > 0 && i < n
    ensures perRun * n > 0
    ensures Index(n, rep, i) / (perRun * n) == rep / perRun
    ensures perRun * n - 1 - Index(n, rep, i) % (perRun * n) == (perRun - 1 - rep % perRun) * n + i
  {
    var q, u := rep / perRun, rep % perRun;
    var r := u * n + (n - 1 - i);
    AtLeast(perRun - u, n);
    assert Index(n, rep, i) == q * (perRun * n) + r by { assert rep * n == (q * perRun + u) * n; }
    DivMod(q, perRun * n, r);
  }

  /** Every reading is a measurement of the very input it is filed under. */
  lemma PrintedIsSample<Input>(km: KernelModule<Input>, firstRun: nat, inputs: seq<Input>, perRun: nat, rep: nat,
                               i: nat)
    requires perRun > 0 && i < |inputs| && km.inputs == Repeat(inputs, perRun)
    ensures |km.inputs| > 0
    ensures Printed(km, firstRun, Index(|inputs|, rep, i)) == Sample(km, firstRun, inputs, perRun, rep, i)
  {
    PositionInRun(|inputs|, perRun, rep, i);
    RepeatAt(inputs, perRun, perRun - 1 - rep % perRun, i);
    hide Index, Repeat;
  }

  lemma RepBelow(n: nat, k: nat, nReps: nat)
    requires n > 0 && k < nReps * n
    ensures k / n < nReps
  {
    AtLeast(k / n - nReps + 1, n);
  }

  /** A reading belongs to one cell. */
  lemma OneCell(y: Yield, n: nat, k: nat)
    requires n > 0 && y == Filed(n, k, y.reading)
    ensures y.input < n
    ensures forall i, rep :: 0 <= i < n && 0 <= rep && Index(n, rep, i) == k ==> rep == y.rep && i == y.input
  {
    forall i: nat, rep: nat | i < n && Index(n, rep, i) == k ensures rep == y.rep && i == y.input {
      IndexInverts(n, k, rep, i);
    }
  }

  /** File the readings in order; every cell is written once. */
  method FileReadings(ys: seq<Yield>, n: nat, nReps: nat) returns (readings: array2<Reading>)
    requires |ys| == nReps * n && n > 0
    requires forall k :: 0 <= k < |ys| ==> ys[k] == Filed(n, k, ys[k].reading)
    ensures readings.Length0 == n && readings.Length1 == nReps
    ensures forall i, rep :: 0 <= i < n && 0 <= rep < nReps ==>
              Index(n, rep, i) < |ys| && readings[i, rep] == ys[Index(n, rep, i)].reading
  {
    readings := new Reading[n, nReps]((_, _) => Reading(0, []));
    forall i, rep | 0 <= i < n && 0 <= rep < nReps ensures Index(n, rep, i) < |ys| { IndexBelow(n, rep, i, nReps); }
    hide Index, Filed;
    for k := 0 to |ys|
      invariant forall i, rep :: 0 <= i < n && 0 <= rep < nReps && Index(n, rep, i) < k ==>
                  readings[i, rep] == ys[Index(n, rep, i)].reading
    {
      OneCell(ys[k], n, k);
      IndexInverts(n, k, ys[k].rep, ys[k].input);
      assert ys[k].rep < nReps by { RepBelow(n, k, nReps); }
      readings[ys[k].input, ys[k].rep] := ys[k].reading;
    }
  }

  /** No sample of any input and repetition is zero, unless zeros are allowed. */
  ghost predicate SamplesValid<Input>(km: KernelModule<Input>, firstRun: nat, inputs: seq<Input>, perRun: nat,
                                      nReps: nat, archMode: bool)
    requires perRun > 0
  {
    archMode || forall i, rep :: 0 <= i < |inputs| && 0 <= rep < nReps ==>
        Sample(km, firstRun, inputs, perRun, rep, i).htrace != 0
  }

  lemma SamplesAreReadings<Input>(km: KernelModule<Input>, firstRun: nat, inputs: seq<Input>, perRun: nat, nReps: nat,
                                  archMode: bool)
    requires perRun > 0 && |inputs| > 0 && km.inputs == Repeat(inputs, perRun) && |km.inputs| > 0
    ensures ReadingsValid(km, firstRun, archMode, 0, nReps * |inputs|) <==>
              SamplesValid(km, firstRun, inputs, perRun, nReps, archMode)
  {
    var n := |inputs|;
    hide Sample, Printed;
    forall i, rep | 0 <= i < n && 0 <= rep < nReps
      ensures Index(n, rep, i) < nReps * n
      ensures Printed(km, firstRun, Index(n, rep, i)) == Sample(km, firstRun, inputs, perRun, rep, i)
    {
      IndexBelow(n, rep, i, nReps);
      PrintedIsSample(km, firstRun, inputs, perRun, rep, i);
    }
    forall k: nat | k < nReps * n
      ensures k / n < nReps && Printed(km, firstRun, k) == Sample(km, firstRun, inputs, perRun, k / n, n - 1 - k % n)
    {
      RepBelow(n, k, nReps);
      IndexInverts(n, k, k / n, n - 1 - k % n);
      PrintedIsSample(km, firstRun, inputs, perRun, k / n, n - 1 - k % n);
    }
    hide Index;
  }

  /** All readings, by input and repetition; it succeeds exactly when every run does and, outside
      architectural mode, no sample is zero.  Loading the inputs five times saves calls of the module
      and changes nothing else. */
  method TraceTestCase<Input>(km: KernelModule<Input>, inputs: seq<Input>, nReps: nat, archMode: bool)
    returns (ok: bool, readings: array2<Reading>)
    requires km.Valid() && km.nextMeasurementId < 0
    modifies km
    ensures km.Valid() && km.nextMeasurementId < 0
    ensures ok ==> readings.Length0 == |inputs| && readings.Length1 == nReps
    ensures ok ==> forall i, rep :: 0 <= i < |inputs| && 0 <= rep < nReps ==>
                     readings[i, rep] == Sample(km, old(km.runs), inputs, PerRun(|inputs|, nReps), rep, i)
    ensures ok <==> |inputs| == 0
                    || (var perRun := PerRun(|inputs|, nReps);
                        && RunsSucceed(km, old(km.runs), nReps / perRun)
                        && SamplesValid(km, old(km.runs), inputs, perRun, nReps, archMode))
  {
    if |inputs| == 0 {
      readings := new Reading[0, nReps];
      return true, readings;
    }
    hide Sample, Index;
    var n, perRun := |inputs|, PerRun(|inputs|, nReps);
    assert perRun == 1 ==> Repeat(inputs, 1) == inputs by { assert Repeat(inputs, 0) == []; }
    km.LoadInputs(if perRun == 1 then inputs else Repeat(inputs, 5));
    SamplesAreReadings(km, km.runs, inputs, perRun, nReps, archMode);
    hide Repeat, PerRun, ReadingsValid, SamplesValid, RunsSucceed;
    var ys;
    ok, ys := ReadTrace(km, nReps, n, archMode, perRun);
    if !ok {
      readings := new Reading[0, 0];
      return;
    }
    readings := FileReadings(ys, n, nReps);
    forall i, rep | 0 <= i < n && 0 <= rep < nReps
      ensures readings[i, rep] == Sample(km, old(km.runs), inputs, perRun, rep, i)
    {
      PrintedIsSample(km, old(km.runs), inputs, perRun, rep, i);
    }
  }
}
