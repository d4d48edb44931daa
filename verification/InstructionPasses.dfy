/** Minimisation of a test program line by line, from the last line to the second.  Every pass keeps the
numbers of the lines it could modify and rebuilds its result from the original file; the result must
be the last program that passed verification.
*/
module InstructionPasses {
  import opened Common

  type Line = string

  /** What a pass puts in the place of a line: nothing, another instruction, or a fence and the line.
      None means that the line cannot be modified. */
  type Change = Line -> Option<seq<Line>>

  /** The program with the line at the cursor changed. */
  function ModifyInstruction(lines: seq<Line>, cursor: nat, change: Change): Option<seq<Line>>
    requires cursor < |lines|
  {
    if change(lines[cursor]).None? then None
    else Some(lines[..cursor] + change(lines[cursor]).value + lines[cursor + 1..])
  }

  /** The original lines from a position on, with those in `ids` changed. */
  function Rebuild(lines: seq<Line>, ids: seq<nat>, change: Change, from: nat): seq<Line>
    requires from <= |lines|
    decreases |lines| - from
  {
    if from == |lines| then []
    else (if from in ids && change(lines[from]).Some? then change(lines[from]).value else [lines[from]])
         + Rebuild(lines, ids, change, from + 1)
  }

  lemma {:induction false} RebuildNothing(lines: seq<Line>, change: Change, from: nat)
    requires from <= |lines|
    ensures Rebuild(lines, [], change, from) == lines[from..]
    decreases |lines| - from
  {
    if from < |lines| { RebuildNothing(lines, change, from + 1); }
  }

  /** Line numbers before the position do not matter. */
  lemma {:induction false} RebuildIgnores(lines: seq<Line>, ids: seq<nat>, ids': seq<nat>, change: Change, from: nat)
    requires from <= |lines| && forall i :: from <= i ==> (i in ids <==> i in ids')
    ensures Rebuild(lines, ids, change, from) == Rebuild(lines, ids', change, from)
    decreases |lines| - from
  {
    if from < |lines| { RebuildIgnores(lines, ids, ids', change, from + 1); }
  }

  /** The numbers go down, stay within the file and never reach its first line. */
  ghost predicate Descending(ids: seq<nat>, from: nat, size: nat) {
    && (forall i :: i in ids ==> from <= i && 0 < i < size)
    && forall j, k :: 0 <= j < k < |ids| ==> ids[k] < ids[j]
  }

  ghost predicate Changeable(lines: seq<Line>, ids: seq<nat>, change: Change) {
    forall i :: i in ids ==> i < |lines| && change(lines[i]).Some?
  }

  /** The program while the cursor is at a line: the lines before it are the original ones. */
  ghost predicate RebuiltFrom(program: seq<Line>, lines: seq<Line>, ids: seq<nat>, change: Change, cursor: nat) {
    cursor <= |lines| && program == lines[..cursor] + Rebuild(lines, ids, change, cursor)
  }

  /** Skipping a line. */
  lemma CursorDown(program: seq<Line>, lines: seq<Line>, ids: seq<nat>, change: Change, cursor: nat)
    requires cursor < |lines| && RebuiltFrom(program, lines, ids, change, cursor + 1) &&
             Descending(ids, cursor + 1, |lines|)
    ensures cursor < |program| && program[cursor] == lines[cursor] && RebuiltFrom(program, lines, ids, change, cursor)
    ensures Descending(ids, cursor, |lines|)
  {
    assert lines[..cursor + 1] == lines[..cursor] + [lines[cursor]];
  }

  /** Changing a line. */
  lemma CursorChanges(program: seq<Line>, lines: seq<Line>, ids: seq<nat>, change: Change, cursor: nat)
    requires 0 < cursor < |lines| && RebuiltFrom(program, lines, ids, change, cursor + 1) &&
             Descending(ids, cursor + 1, |lines|)
    requires change(lines[cursor]).Some?
    ensures cursor < |program| && ModifyInstruction(program, cursor, change).Some?
    ensures RebuiltFrom(ModifyInstruction(program, cursor, change).value, lines, ids + [cursor], change, cursor)
    ensures Descending(ids + [cursor], cursor, |lines|)
  {
    assert program[cursor] == lines[cursor] && program[..cursor] == lines[..cursor];
    assert program[cursor + 1..] == Rebuild(lines, ids, change, cursor + 1);
    RebuildIgnores(lines, ids, ids + [cursor], change, cursor + 1);
    assert forall j :: 0 <= j < |ids| ==> ids[j] in ids;
  }

  /** Changing the line that was just reached. */
  lemma LineChanges(program: seq<Line>, lines: seq<Line>, ids: seq<nat>, change: Change, cursor: nat)
    requires 0 < cursor < |lines| && RebuiltFrom(program, lines, ids, change, cursor) &&
             Descending(ids, cursor + 1, |lines|)
    requires Changeable(lines, ids, change) && cursor < |program|
    requires program[cursor] == lines[cursor] && ModifyInstruction(program, cursor, change).Some?
    ensures RebuiltFrom(ModifyInstruction(program, cursor, change).value, lines, ids + [cursor], change, cursor)
    ensures Descending(ids + [cursor], cursor, |lines|) && Changeable(lines, ids + [cursor], change)
  {
    assert cursor !in ids;
    assert lines[..cursor + 1] == lines[..cursor] + [lines[cursor]];
    assert RebuiltFrom(program, lines, ids, change, cursor + 1);
    CursorChanges(program, lines, ids, change, cursor);
  }

  // ---------------------------------------------------------------------------------------------
  // The search

  type Oracle = (nat, seq<Line>) -> bool

  /** A call of the oracle: the line that was changed, the program submitted, and the answer. */
  datatype Attempt = Attempt(line: nat, program: seq<Line>, passed: bool)

  /** The program of the last attempt that passed; the file itself when none did. */
  function LastPassed(lines: seq<Line>, log: seq<Attempt>): seq<Line> {
    if |log| == 0 then lines
    else if log[|log| - 1].passed then log[|log| - 1].program
    else LastPassed(lines, log[..|log| - 1])
  }

  function PassedLines(log: seq<Attempt>): seq<nat> {
    if |log| == 0 then []
    else
      var last := log[|log| - 1];
      PassedLines(log[..|log| - 1]) + if last.passed then [last.line] else []
  }

  /** No attempt behind the one that `LastPassed` names has passed. */
  lemma {:induction false} LastPassedIsLast(lines: seq<Line>, log: seq<Attempt>)
    ensures (exists k :: 0 <= k < |log| && log[k].passed) ==>
              exists k :: 0 <= k < |log| && log[k].passed && LastPassed(lines, log) == log[k].program
                          && forall j :: k < j < |log| ==> !log[j].passed
    ensures (forall k :: 0 <= k < |log| ==> !log[k].passed) ==> LastPassed(lines, log) == lines
    decreases |log|
  {
    if |log| > 0 && !log[|log| - 1].passed {
      LastPassedIsLast(lines, log[..|log| - 1]);
    }
  }

  predicate Candidate(line: Line, change: Change, skipped: Line -> bool) {
    !skipped(line) && change(line).Some?
  }

  /** Attempt number `k` changed one more candidate line of the program accepted so far, and has the
      oracle's answer to its k-th call. */
  ghost predicate AttemptMade(lines: seq<Line>, change: Change, skipped: Line -> bool, passes: Oracle,
                              log: seq<Attempt>, k: nat)
    requires k < |log|
  {
    var t, before := log[k], LastPassed(lines, log[..k]);
    && 0 < t.line < |lines| && Candidate(lines[t.line], change, skipped)
    && t.line < |before| && ModifyInstruction(before, t.line, change) == Some(t.program)
    && t.passed == passes(k, t.program)
  }

  ghost predicate Attempted(log: seq<Attempt>, line: nat) {
    exists k :: 0 <= k < |log| && log[k].line == line
  }

  lemma AttemptedMore(log: seq<Attempt>, t: Attempt, line: nat)
    ensures Attempted(log, line) || line == t.line ==> Attempted(log + [t], line)
  {
    if k :| 0 <= k < |log| && log[k].line == line {
      assert (log + [t])[k] == log[k];
    } else if line == t.line {
      assert (log + [t])[|log|] == t;
    }
  }

  /** The search from the end of the file down to the cursor: it attempted every candidate line, once,
      and nothing else. */
  ghost predicate Searched(lines: seq<Line>, change: Change, skipped: Line -> bool, passes: Oracle, log: seq<Attempt>,
                           cursor: nat) {
    && (forall k :: 0 <= k < |log| ==> cursor <= log[k].line && AttemptMade(lines, change, skipped, passes, log, k))
    && (forall j, k :: 0 <= j < k < |log| ==> log[k].line < log[j].line)
    && forall i :: cursor <= i < |lines| && 0 < i && Candidate(lines[i], change, skipped) ==> Attempted(log, i)
  }

  lemma NotACandidate(lines: seq<Line>, change: Change, skipped: Line -> bool, passes: Oracle, log: seq<Attempt>,
                      cursor: nat)
    requires Searched(lines, change, skipped, passes, log, cursor + 1)
    requires cursor == 0 || (cursor < |lines| && !Candidate(lines[cursor], change, skipped))
    ensures Searched(lines, change, skipped, passes, log, cursor)
  {}

  lemma OneMoreAttempt(lines: seq<Line>, change: Change, skipped: Line -> bool, passes: Oracle, log: seq<Attempt>,
                       t: Attempt)
    requires Searched(lines, change, skipped, passes, log, t.line + 1)
    requires 0 < t.line < |lines| && Candidate(lines[t.line], change, skipped) && t.passed == passes(|log|, t.program)
    requires t.line < |LastPassed(lines, log)| &&
             ModifyInstruction(LastPassed(lines, log), t.line, change) == Some(t.program)
    ensures Searched(lines, change, skipped, passes, log + [t], t.line)
    ensures LastPassed(lines, log + [t]) == if t.passed then t.program else LastPassed(lines, log)
    ensures PassedLines(log + [t]) == PassedLines(log) + if t.passed then [t.line] else []
  {
    hide ModifyInstruction, Candidate, LastPassed, PassedLines, Attempted;
    var longer := log + [t];
    LogExtends(lines, log, t);
    forall k | 0 <= k < |longer|
      ensures t.line <= longer[k].line && AttemptMade(lines, change, skipped, passes, longer, k)
    {
      if k < |log| { AttemptStays(lines, change, skipped, passes, log, t, k); }
    }
    hide AttemptMade;
    forall i | t.line <= i < |lines| && 0 < i && Candidate(lines[i], change, skipped) ensures Attempted(longer, i) {
      AttemptedMore(log, t, i);
    }
  }

  lemma LogExtends(lines: seq<Line>, log: seq<Attempt>, t: Attempt)
    ensures (log + [t])[..|log|] == log
    ensures LastPassed(lines, log + [t]) == if t.passed then t.program else LastPassed(lines, log)
    ensures PassedLines(log + [t]) == PassedLines(log) + if t.passed then [t.line] else []
  {
    assert (log + [t])[..|log|] == log;
  }

  lemma AttemptStays(lines: seq<Line>, change: Change, skipped: Line -> bool, passes: Oracle, log: seq<Attempt>,
                     t: Attempt, k: nat)
    requires k < |log| && AttemptMade(lines, change, skipped, passes, log, k)
    ensures AttemptMade(lines, change, skipped, passes, log + [t], k)
  {
    hide ModifyInstruction, Candidate, LastPassed;
    assert (log + [t])[..k] == log[..k] && (log + [t])[k] == log[k];
  }

  lemma NothingTried(lines: seq<Line>, change: Change, skipped: Line -> bool, passes: Oracle)
    ensures Searched(lines, change, skipped, passes, [], |lines|) && LastPassed(lines, []) == lines &&
            PassedLines([]) == []
    ensures RebuiltFrom(lines, lines, [], change, |lines|) && Descending([], |lines|, |lines|) &&
            Changeable(lines, [], change)
  {}

  lemma RebuiltWhole(program: seq<Line>, lines: seq<Line>, ids: seq<nat>, change: Change)
    requires RebuiltFrom(program, lines, ids, change, 0)
    ensures program == Rebuild(lines, ids, change, 0)
  {}

  /** The loop that all passes share.  The oracle may answer every call differently. */
  method MinimizationLoop(lines: seq<Line>, change: Change, skipped: Line -> bool, passes: Oracle)
    returns (ids: seq<nat>, ghost log: seq<Attempt>)
    requires |lines| > 0
    ensures Searched(lines, change, skipped, passes, log, 0) && ids == PassedLines(log)
    ensures Descending(ids, 0, |lines|) && Changeable(lines, ids, change)
    ensures Rebuild(lines, ids, change, 0) == LastPassed(lines, log)
  {
    hide Searched, LastPassed, PassedLines, RebuiltFrom, Rebuild, Descending, Changeable;
    var instructions, cursor, calls := lines, |lines|, 0;
    ids, log := [], [];
    NothingTried(lines, change, skipped, passes);
    while true
      invariant 0 < cursor <= |lines| && Descending(ids, cursor, |lines|) && Changeable(lines, ids, change)
      invariant RebuiltFrom(instructions, lines, ids, change, cursor)
      invariant Searched(lines, change, skipped, passes, log, cursor) && calls == |log|
      invariant ids == PassedLines(log) && instructions == LastPassed(lines, log)
      decreases cursor
    {
      cursor := cursor - 1;
      CursorDown(instructions, lines, ids, change, cursor);
      if cursor == 0 { break; }
      if skipped(instructions[cursor]) {
        NotACandidate(lines, change, skipped, passes, log, cursor);
        continue;
      }
      var modified := ModifyInstruction(instructions, cursor, change);
      if modified.None? {
        NotACandidate(lines, change, skipped, passes, log, cursor);
        continue;
      }
      var passed := passes(calls, modified.value);
      calls := calls + 1;
      OneMoreAttempt(lines, change, skipped, passes, log, Attempt(cursor, modified.value, passed));
      log := log + [Attempt(cursor, modified.value, passed)];
      if passed {
        LineChanges(instructions, lines, ids, change, cursor);
        instructions := modified.value;
        ids := ids + [cursor];
      }
    }
    NotACandidate(lines, change, skipped, passes, log, 0);
    RebuiltWhole(instructions, lines, ids, change);
  }

  // ---------------------------------------------------------------------------------------------
  // Simplification and fence insertion: the changes are made again, in the order in which they passed

  lemma {:induction false} CursorDownTo(program: seq<Line>, lines: seq<Line>, ids: seq<nat>, change: Change, from: nat,
                                        to: nat)
    requires to <= from && RebuiltFrom(program, lines, ids, change, from) && Descending(ids, from, |lines|)
    ensures RebuiltFrom(program, lines, ids, change, to)
    decreases from - to
  {
    if to < from {
      CursorDown(program, lines, ids, change, from - 1);
      CursorDownTo(program, lines, ids, change, from - 1, to);
    }
  }

  /** One change made again: the cursor goes down to the next number. */
  lemma ChangeAgain(program: seq<Line>, lines: seq<Line>, ids: seq<nat>, change: Change, k: nat)
    requires k < |ids| && Descending(ids, 0, |lines|) && Changeable(lines, ids, change)
    requires RebuiltFrom(program, lines, ids[..k], change, if k == 0 then |lines| else ids[k - 1])
    ensures ids[k] < |program| && program[ids[k]] == lines[ids[k]] && ModifyInstruction(program, ids[k], change).Some?
    ensures RebuiltFrom(ModifyInstruction(program, ids[k], change).value, lines, ids[..k + 1], change, ids[k])
  {
    hide Rebuild;
    var from := if k == 0 then |lines| else ids[k - 1];
    var before := ids[..k];
    assert ids[k] in ids && forall j :: 0 <= j < k ==> ids[j] >= from;
    assert Descending(before, from, |lines|) by {
      forall i | i in before ensures from <= i && 0 < i < |lines| { assert i in ids; }
    }
    CursorDownTo(program, lines, before, change, from, ids[k] + 1);
    CursorDown(program, lines, before, change, ids[k]);
    CursorChanges(program, lines, before, change, ids[k]);
    assert before + [ids[k]] == ids[..k + 1];
  }

  /** Simplification: making the accepted replacements again on the original file gives the last program
      that passed. */
  method RunSimplification(lines: seq<Line>, change: Change, skipped: Line -> bool, passes: Oracle)
    returns (program: seq<Line>, ghost log: seq<Attempt>)
    requires |lines| > 0
    ensures Searched(lines, change, skipped, passes, log, 0)
    ensures program == LastPassed(lines, log)
  {
    hide Searched, RebuiltFrom, Rebuild, Descending, Changeable, LastPassed, PassedLines, ModifyInstruction;
    var ids;
    ids, log := MinimizationLoop(lines, change, skipped, passes);
    program := lines;
    NothingTried(lines, change, skipped, passes);
    assert ids[..0] == [];
    for k := 0 to |ids|
      invariant RebuiltFrom(program, lines, ids[..k], change, if k == 0 then |lines| else ids[k - 1])
    {
      ChangeAgain(program, lines, ids, change, k);
      program := ModifyInstruction(program, ids[k], change).value;
    }
    RebuiltIsVerified(program, lines, ids, change);
  }

  lemma RebuiltIsVerified(program: seq<Line>, lines: seq<Line>, ids: seq<nat>, change: Change)
    requires Descending(ids, 0, |lines|)
    requires RebuiltFrom(program, lines, ids[..|ids|], change, if ids == [] then |lines| else ids[|ids| - 1])
    ensures program == Rebuild(lines, ids, change, 0)
  {
    var lowest := if ids == [] then |lines| else ids[|ids| - 1];
    assert ids[..|ids|] == ids;
    assert ids != [] ==> ids[|ids| - 1] in ids;
    assert forall j :: 0 <= j < |ids| ==> ids[j] in ids && ids[j] >= lowest;
    CursorDownTo(program, lines, ids, change, lowest, 0);
  }

  /** A fence goes before every line that is not a branch. */
  function FenceBefore(fence: Line, isBranch: Line -> bool): Change {
    line => if isBranch(line) then None else Some([fence, line])
  }

  lemma InsertedIsChanged(program: seq<Line>, i: nat, fence: Line, isBranch: Line -> bool)
    requires i < |program| && ModifyInstruction(program, i, FenceBefore(fence, isBranch)).Some?
    ensures ModifyInstruction(program, i, FenceBefore(fence, isBranch)).value == program[..i] + [fence] + program[i..]
  {
    assert program[i..] == [program[i]] + program[i + 1..];
  }

  /** Fence insertion: inserting the fences again into the original file gives the last program that
      passed. */
  method RunFenceInsertion(lines: seq<Line>, fence: Line, isBranch: Line -> bool, skipped: Line -> bool, passes: Oracle)
    returns (program: seq<Line>, ghost log: seq<Attempt>)
    requires |lines| > 0
    ensures Searched(lines, FenceBefore(fence, isBranch), skipped, passes, log, 0)
    ensures program == LastPassed(lines, log)
  {
    hide Searched, RebuiltFrom, Rebuild, Descending, Changeable, LastPassed, PassedLines, ModifyInstruction,
      FenceBefore;
    var ids;
    ids, log := MinimizationLoop(lines, FenceBefore(fence, isBranch), skipped, passes);
    program := lines;
    NothingTried(lines, FenceBefore(fence, isBranch), skipped, passes);
    assert ids[..0] == [];
    for k := 0 to |ids|
      invariant RebuiltFrom(program, lines, ids[..k], FenceBefore(fence, isBranch),
                            if k == 0 then |lines| else ids[k - 1])
    {
      ChangeAgain(program, lines, ids, FenceBefore(fence, isBranch), k);
      var i := ids[k];
      InsertedIsChanged(program, i, fence, isBranch);
      program := program[..i] + [fence] + program[i..];
    }
    RebuiltIsVerified(program, lines, ids, FenceBefore(fence, isBranch));
  }

  // ---------------------------------------------------------------------------------------------
  // Removal: the result is built in one pass over the original file, which also clears tags

  const REMOVE: Change := _ => Some([])

  /** The tag of instrumentation lines. */
  const TAG: string := "instrumentation"

  predicate HasTag(line: Line) {
    |line| >= |TAG| && (TAG <= line || HasTag(line[1..]))
  }

  function LowerChar(c: char): char {
    if 'A' <= c <= 'Z' then c - 'A' + 'a' else c
  }

  function Lower(line: Line): (r: Line)
    ensures |r| == |line|
  {
    seq(|line|, i requires 0 <= i < |line| => LowerChar(line[i]))
  }

  /** Remove the occurrences of the tag from left to right. */
  function RemoveTag(line: Line): Line {
    if |line| < |TAG| then line
    else if TAG <= line then RemoveTag(line[|TAG|..])
    else [line[0]] + RemoveTag(line[1..])
  }

  function Concatenated(pieces: seq<Line>): Line {
    if |pieces| == 0 then [] else pieces[0] + Concatenated(pieces[1..])
  }

  /** The pieces with the tag in between. */
  function Tagged(pieces: seq<Line>): Line
    requires |pieces| > 0
  {
    if |pieces| == 1 then pieces[0] else pieces[0] + TAG + Tagged(pieces[1..])
  }

  /** A line is a row of pieces without the tag, with the tag in between; removing the tag leaves the pieces
      in order and nothing else. */
  lemma {:induction false} RemoveTagKeepsRest(line: Line) returns (pieces: seq<Line>)
    ensures |pieces| > 0 && (forall k :: 0 <= k < |pieces| ==> !HasTag(pieces[k]))
    ensures Tagged(pieces) == line && Concatenated(pieces) == RemoveTag(line)
    decreases |line|
  {
    if |line| < |TAG| {
      pieces := [line];
      assert Concatenated(pieces) == line + Concatenated([]);
    } else if TAG <= line {
      var rest := RemoveTagKeepsRest(line[|TAG|..]);
      pieces := [[]] + rest;
      assert line == TAG + line[|TAG|..] && pieces[1..] == rest;
      assert Concatenated(pieces) == [] + Concatenated(rest);
    } else {
      var rest := RemoveTagKeepsRest(line[1..]);
      pieces := [[line[0]] + rest[0]] + rest[1..];
      FirstPieceLonger(line, rest);
    }
  }

  lemma FirstPieceLonger(line: Line, rest: seq<Line>)
    requires |line| >= |TAG| && !(TAG <= line) && |rest| > 0 && !HasTag(rest[0]) && Tagged(rest) == line[1..]
    ensures var pieces := [[line[0]] + rest[0]] + rest[1..];
            && !HasTag(pieces[0]) && Tagged(pieces) == line
            && Concatenated(pieces) == [line[0]] + Concatenated(rest)
  {
    var c, first := [line[0]], [line[0]] + rest[0];
    assert line == c + line[1..] && first[1..] == rest[0];
    FirstOfTagged(rest);
    NoPrefix(first, line);
    LongerFirst(c, rest);
    hide Tagged, Concatenated;
  }

  lemma NoPrefix(first: Line, line: Line)
    requires first <= line && !(TAG <= line)
    ensures !(TAG <= first)
  {}

  lemma LongerFirst(c: Line, rest: seq<Line>)
    requires |rest| > 0
    ensures var pieces := [c + rest[0]] + rest[1..];
            Tagged(pieces) == c + Tagged(rest) && Concatenated(pieces) == c + Concatenated(rest)
  {
    var pieces := [c + rest[0]] + rest[1..];
    assert pieces[1..] == rest[1..];
    Regrouped(c, rest[0], [], Concatenated(rest[1..]));
    if |rest| > 1 { Regrouped(c, rest[0], TAG, Tagged(rest[1..])); }
  }

  lemma Regrouped(c: Line, x: Line, y: Line, z: Line)
    ensures (c + x) + z == c + (x + z) && (c + x) + y + z == c + (x + y + z)
  {}

  lemma FirstOfTagged(pieces: seq<Line>)
    requires |pieces| > 0
    ensures pieces[0] <= Tagged(pieces)
  {}

  /** The case of the letters is ignored when looking for the tag, but not when removing it. */
  function ClearTag(line: Line): Line {
    if HasTag(Lower(line)) then RemoveTag(line) else line
  }

  function Clear(line: Line, times: nat): Line {
    if times == 0 then line else ClearTag(Clear(line, times - 1))
  }

  /** Removing the tag shortens exactly the lines that have it. */
  lemma {:induction false} RemoveTagShortens(line: Line)
    ensures if HasTag(line) then |RemoveTag(line)| < |line| else RemoveTag(line) == line
    decreases |line|
  {
    if |line| >= |TAG| {
      if TAG <= line {
        RemoveTagShortens(line[|TAG|..]);
      } else {
        RemoveTagShortens(line[1..]);
        assert line == [line[0]] + line[1..];
      }
    }
  }

  lemma {:induction false} LowerKeepsTag(line: Line)
    requires HasTag(line)
    ensures HasTag(Lower(line))
    decreases |line|
  {
    if TAG <= line {
      forall i | 0 <= i < |TAG| ensures Lower(line)[i] == TAG[i] { assert line[i] == TAG[i]; LowerCaseStays(i); }
    } else {
      LowerKeepsTag(line[1..]);
      assert Lower(line)[1..] == Lower(line[1..]);
    }
  }

  lemma LowerCaseStays(i: nat)
    requires i < |TAG|
    ensures LowerChar(TAG[i]) == TAG[i]
  {}

  /** A line survives clearing exactly when it is not cleared or has no tag in lower case. */
  lemma {:induction false} ClearedUnchanged(line: Line, times: nat)
    ensures Clear(line, times) == line <==> times == 0 || !HasTag(line)
    ensures |Clear(line, times)| <= |line|
    ensures times > 0 && HasTag(line) ==> |Clear(line, times)| < |line|
    decreases times
  {
    if times > 0 {
      var before := Clear(line, times - 1);
      ClearedUnchanged(line, times - 1);
      RemoveTagShortens(before);
      if HasTag(before) { LowerKeepsTag(before); }
    }
  }

  /** How many lines are removed in a row from a position on. */
  function RemovedRow(size: nat, ids: seq<nat>, from: nat): nat
    requires from <= size
    decreases size - from
  {
    if from < size && from in ids then 1 + RemovedRow(size, ids, from + 1) else 0
  }

  /** The lines that are kept; the tag of a kept line is cleared once per removed line right behind it. */
  function KeptLines(lines: seq<Line>, ids: seq<nat>, from: nat): seq<Line>
    requires from <= |lines|
    decreases |lines| - from
  {
    if from == |lines| then []
    else if from in ids then KeptLines(lines, ids, from + 1)
    else [Clear(lines[from], RemovedRow(|lines|, ids, from + 1))] + KeptLines(lines, ids, from + 1)
  }

  ghost predicate AllRemoved(ids: seq<nat>, from: nat, to: nat) {
    forall i :: from <= i < to ==> i in ids
  }

  lemma AllRemovedFrom(ids: seq<nat>, from: nat, to: nat)
    ensures AllRemoved(ids, from, to) <==> from >= to || (from in ids && AllRemoved(ids, from + 1, to))
  {}

  lemma {:induction false} RowExtends(size: nat, ids: seq<nat>, from: nat)
    requires from <= size
    ensures RemovedRow(size + 1, ids, from) ==
              if size in ids && AllRemoved(ids, from, size) then RemovedRow(size, ids, from) + 1
              else RemovedRow(size, ids, from)
    decreases size - from
  {
    hide AllRemoved;
    AllRemovedFrom(ids, from, size);
    if from < size && from in ids { RowExtends(size, ids, from + 1); }
  }

  lemma ClearedNever(line: Line)
    ensures Clear(line, 0) == line
  {}

  lemma ClearedOnceMore(line: Line, times: nat)
    ensures Clear(line, times + 1) == ClearTag(Clear(line, times))
  {}

  /** One more line: it is kept, or it is removed and clears the tag of the last kept one. */
  ghost predicate Extended(kept: seq<Line>, more: seq<Line>, removed: bool, line: Line) {
    if !removed then more == kept + [line]
    else if |kept| == 0 then more == []
    else more == kept[..|kept| - 1] + [ClearTag(kept[|kept| - 1])]
  }

  lemma PrependKept(first: Line, kept: seq<Line>, more: seq<Line>, removed: bool, line: Line)
    requires Extended(kept, more, removed, line) && (removed ==> |kept| > 0)
    ensures Extended([first] + kept, [first] + more, removed, line)
  {
    if removed { assert ([first] + kept)[..|kept|] == [first] + kept[..|kept| - 1]; }
  }

  lemma ClearLast(first: Line, line: Line)
    ensures Extended([first] + [], [ClearTag(first)] + [], true, line)
    ensures Extended([], [], true, line) && Extended([], [line] + [], false, line)
  {}

  lemma KeptUnfolds(lines: seq<Line>, ids: seq<nat>, from: nat)
    requires from < |lines|
    ensures KeptLines(lines, ids, |lines|) == []
    ensures KeptLines(lines, ids, from) ==
              if from in ids then KeptLines(lines, ids, from + 1)
              else [Clear(lines[from], RemovedRow(|lines|, ids, from + 1))] + KeptLines(lines, ids, from + 1)
  {}

  /** The result for one more line, which is a cleared one only if some line is kept. */
  lemma {:induction false} KeptExtends(lines: seq<Line>, line: Line, ids: seq<nat>, from: nat)
    requires from <= |lines|
    ensures Extended(KeptLines(lines, ids, from), KeptLines(lines + [line], ids, from), |lines| in ids, line)
    ensures |KeptLines(lines, ids, from)| == 0 <==> AllRemoved(ids, from, |lines|)
    decreases |lines| - from
  {
    hide HasTag, RemoveTag, Lower, ClearTag, Clear;
    AllRemovedFrom(ids, from, |lines|);
    KeptUnfolds(lines + [line], ids, from);
    if from == |lines| {
      ClearedNever(line);
      NoRow(|lines| + 1, ids);
      KeptUnfolds(lines + [line], ids, |lines|);
      ClearLast(line, line);
      assert KeptLines(lines, ids, from) == [];
    } else {
      hide Extended, AllRemoved, RemovedRow;
      KeptUnfolds(lines, ids, from);
      hide KeptLines;
      KeptExtends(lines, line, ids, from + 1);
      RowExtends(|lines|, ids, from + 1);
      assert (lines + [line])[from] == lines[from];
      var row := RemovedRow(|lines|, ids, from + 1);
      ClearedOnceMore(lines[from], row);
      var first, kept, more := Clear(lines[from], row), KeptLines(lines, ids, from + 1),
        KeptLines(lines + [line], ids, from + 1);
      if from !in ids {
        if |lines| in ids && |kept| == 0 {
          NothingExtended(kept, more, line);
          ClearLast(first, line);
        } else {
          PrependKept(first, kept, more, |lines| in ids, line);
        }
      }
    }
  }

  lemma NothingExtended(kept: seq<Line>, more: seq<Line>, line: Line)
    requires Extended(kept, more, true, line) && |kept| == 0
    ensures kept == more == []
  {}

  lemma NoRow(size: nat, ids: seq<nat>)
    ensures RemovedRow(size, ids, size) == 0
  {}

  ghost predicate ClearedFrom(line: Line, kept: Line) {
    exists times :: line == Clear(kept, times)
  }

  /** Line by line the same program, up to cleared tags. */
  ghost predicate SameUpToTags(program: seq<Line>, kept: seq<Line>) {
    |program| == |kept| && forall j :: 0 <= j < |kept| ==> ClearedFrom(program[j], kept[j])
  }

  lemma SameWithOneMore(line: Line, kept: Line, program: seq<Line>, rest: seq<Line>)
    requires ClearedFrom(line, kept) && SameUpToTags(program, rest)
    ensures SameUpToTags([line] + program, [kept] + rest)
  {
    hide ClearedFrom;
  }

  lemma {:induction false} KeptAreRebuilt(lines: seq<Line>, ids: seq<nat>, from: nat)
    requires from <= |lines|
    ensures SameUpToTags(KeptLines(lines, ids, from), Rebuild(lines, ids, REMOVE, from))
    decreases |lines| - from
  {
    if from < |lines| {
      var program, rest := KeptLines(lines, ids, from + 1), Rebuild(lines, ids, REMOVE, from + 1);
      KeptAreRebuilt(lines, ids, from + 1);
      hide SameUpToTags;
      if from in ids {
        assert Rebuild(lines, ids, REMOVE, from) == rest;
      } else {
        var line := Clear(lines[from], RemovedRow(|lines|, ids, from + 1));
        assert ClearedFrom(line, lines[from]);
        SameWithOneMore(line, lines[from], program, rest);
      }
    }
  }

  /** No kept line loses a tag to the removed lines right behind it. */
  ghost predicate TagsKept(lines: seq<Line>, ids: seq<nat>, from: nat) {
    forall i :: from <= i < |lines| && i !in ids ==> Clear(lines[i], RemovedRow(|lines|, ids, i + 1)) == lines[i]
  }

  lemma SameHeadAndTail(x: Line, xs: seq<Line>, y: Line, ys: seq<Line>)
    ensures [x] + xs == [y] + ys <==> x == y && xs == ys
  {
    assert ([x] + xs)[1..] == xs && ([y] + ys)[1..] == ys;
  }

  /** The result is exactly the verified program if and only if no tag is lost. */
  lemma {:induction false} KeptExactly(lines: seq<Line>, ids: seq<nat>, from: nat)
    requires from <= |lines|
    ensures KeptLines(lines, ids, from) == Rebuild(lines, ids, REMOVE, from) <==> TagsKept(lines, ids, from)
    decreases |lines| - from
  {
    if from < |lines| {
      KeptExactly(lines, ids, from + 1);
      var program, rest := KeptLines(lines, ids, from + 1), Rebuild(lines, ids, REMOVE, from + 1);
      var line := Clear(lines[from], RemovedRow(|lines|, ids, from + 1));
      assert TagsKept(lines, ids, from) <==> TagsKept(lines, ids, from + 1) && (from in ids || line == lines[from]);
      hide TagsKept, RemovedRow;
      if from in ids {
        assert Rebuild(lines, ids, REMOVE, from) == rest;
      } else {
        SameHeadAndTail(line, program, lines[from], rest);
      }
    }
  }

  /** No kept line that has the tag stands right in front of a removed one. */
  ghost predicate NoTagLost(lines: seq<Line>, ids: seq<nat>) {
    forall i :: 0 <= i < |lines| - 1 && i !in ids && i + 1 in ids ==> !HasTag(lines[i])
  }

  lemma TagsKeptExactly(lines: seq<Line>, ids: seq<nat>)
    ensures TagsKept(lines, ids, 0) <==> NoTagLost(lines, ids)
  {
    forall i | 0 <= i < |lines| && i !in ids
      ensures Clear(lines[i], RemovedRow(|lines|, ids, i + 1)) == lines[i]
              <==> (i + 1 < |lines| && i + 1 in ids ==> !HasTag(lines[i]))
    {
      ClearedUnchanged(lines[i], RemovedRow(|lines|, ids, i + 1));
    }
    hide Clear, RemovedRow, HasTag;
  }

  /** Removal: the result is the last program that passed, up to cleared tags, and exactly that program
      if and only if no tag is lost. */
  method RunRemoval(lines: seq<Line>, skipped: Line -> bool, passes: Oracle)
    returns (program: seq<Line>, ghost log: seq<Attempt>)
    requires |lines| > 0
    ensures Searched(lines, REMOVE, skipped, passes, log, 0)
    ensures SameUpToTags(program, LastPassed(lines, log))
    ensures program == LastPassed(lines, log) <==> NoTagLost(lines, PassedLines(log))
  {
    var ids;
    ids, log := MinimizationLoop(lines, REMOVE, skipped, passes);
    hide Searched, LastPassed, PassedLines, HasTag, KeptLines, NoTagLost, TagsKept, SameUpToTags;
    program := KeepLines(lines, ids);
    KeptAreRebuilt(lines, ids, 0);
    KeptExactly(lines, ids, 0);
    TagsKeptExactly(lines, ids);
  }

  /** Copy the lines that are kept, clearing the tag of the last one at every removed line. */
  method KeepLines(lines: seq<Line>, ids: seq<nat>) returns (program: seq<Line>)
    requires 0 !in ids
    ensures program == KeptLines(lines, ids, 0)
  {
    hide HasTag, RemoveTag, RemovedRow, Clear;
    program := [];
    for i := 0 to |lines|
      invariant program == KeptLines(lines[..i], ids, 0)
      invariant i > 0 ==> |program| > 0
    {
      assert lines[..i + 1] == lines[..i] + [lines[i]];
      KeptExtends(lines[..i], lines[i], ids, 0);
      if i in ids {
        var last := |program| - 1;
        if HasTag(Lower(program[last])) { program := program[last := RemoveTag(program[last])]; }
      } else {
        program := program + [lines[i]];
      }
    }
    assert lines[..|lines|] == lines;
  }

  lemma TagHasTag()
    ensures HasTag(TAG) && !HasTag("nop")
  {
    assert TAG <= TAG;
  }

  lemma LastTagLost(a: Line, b: Line, c: Line)
    requires HasTag(b)
    ensures KeptLines([a, b, c], [2], 0) != [a, b]
  {
    hide KeptLines, HasTag, TagsKept;
    var lines: seq<Line>, ids: seq<nat> := [a, b, c], [2];
    assert Rebuild(lines, ids, REMOVE, 2) == Rebuild(lines, ids, REMOVE, 3) == [];
    assert Rebuild(lines, ids, REMOVE, 0) == [a] + Rebuild(lines, ids, REMOVE, 1) == [a, b];
    KeptExactly(lines, ids, 0);
    TagsKeptExactly(lines, ids);
    assert 1 !in ids && 1 + 1 in ids && lines[1] == b;
  }

  /** The search on three lines of which the second is skipped, with an oracle that accepts everything. */
  lemma ThreeLines(a: Line, b: Line, c: Line, skipped: Line -> bool, passes: Oracle) returns (log: seq<Attempt>)
    requires skipped(b) && !skipped(c) && passes(0, [a, b]) && HasTag(b)
    ensures Searched([a, b, c], REMOVE, skipped, passes, log, 0) && !NoTagLost([a, b, c], PassedLines(log))
    ensures KeptLines([a, b, c], PassedLines(log), 0) != LastPassed([a, b, c], log)
  {
    hide Searched, HasTag, KeptLines;
    var lines, t := [a, b, c], Attempt(2, [a, b], true);
    assert lines[..2] + [] + lines[3..] == [a, b];
    NothingTried(lines, REMOVE, skipped, passes);
    OneMoreAttempt(lines, REMOVE, skipped, passes, [], t);
    assert [] + [t] == [t];
    NotACandidate(lines, REMOVE, skipped, passes, [t], 1);
    NotACandidate(lines, REMOVE, skipped, passes, [t], 0);
    log := [t];
    assert PassedLines(log) == [2] && 1 !in [2] && 1 + 1 in [2] && lines[1] == b;
    assert LastPassed(lines, log) == [a, b];
    LastTagLost(a, b, c);
  }

  /** The loss happens: removing the line behind a tagged one, which is itself skipped, gives a program
      that was never verified. */
  lemma TagLost()
    ensures exists lines: seq<Line>, skipped: Line -> bool, passes: Oracle, log: seq<Attempt> ::
              Searched(lines, REMOVE, skipped, passes, log, 0) && !NoTagLost(lines, PassedLines(log)) &&
              KeptLines(lines, PassedLines(log), 0) != LastPassed(lines, log)
  {
    hide HasTag, Searched, NoTagLost, PassedLines, KeptLines, LastPassed;
    TagHasTag();
    var skipped: Line -> bool, passes: Oracle := line => HasTag(line), (_, _) => true;
    var log := ThreeLines("", TAG, "nop", skipped, passes);
    assert Searched(["", TAG, "nop"], REMOVE, skipped, passes, log, 0);
  }
}
