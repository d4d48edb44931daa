/** Random control-flow graphs of generated functions, and the branch instructions that realise them. */
module ControlFlow {
  import opened Common

  /** A block of the function by number, or the exit of the whole test case.  The exit block of a
      function of `n` blocks has number `n`. */
  datatype Label = Block(i: nat) | TestCaseExit

  datatype Terminator = Conditional(target: Label) | Jump(target: Label)

  /** Where control can go from a block with these terminators, when the block `next` follows it. */
  function Flow(ts: seq<Terminator>, next: Label): set<Label> {
    if |ts| == 0 then {next}
    else match ts[0]
         case Jump(l) => {l}
         case Conditional(l) => {l} + Flow(ts[1..], next)
  }

  function Labels(successors: seq<nat>): set<Label> {
    set s | s in successors :: Block(s)
  }

  /** The successors of block `i` in a graph of `n` blocks: the next block first, then other later ones.
      The last block leads to the exit. */
  predicate SuccessorsOf(n: nat, i: nat, s: seq<nat>, min: int, max: int) {
    && |s| > 0 && s[0] == i + 1 && Distinct(s)
    && (forall t :: t in s ==> i < t <= n)
    && (i < n - 1 ==> min <= |s| && (|s| <= max || |s| == 1))
    && (i == n - 1 ==> s == [n])
  }

  /** The graph of a function. */
  ghost predicate Dag(n: nat, successors: seq<seq<nat>>, min: int, max: int) {
    |successors| == n && forall i :: 0 <= i < n ==> SuccessorsOf(n, i, successors[i], min, max)
  }

  /** A walk follows edges. */
  ghost predicate Walk(successors: seq<seq<nat>>, path: seq<nat>) {
    |path| > 0 && forall k :: 0 <= k < |path| - 1 ==> path[k] < |successors| && path[k + 1] in successors[path[k]]
  }

  /** Every block lies on a walk from the first block to the exit. */
  lemma EveryBlockOnAWalk(n: nat, successors: seq<seq<nat>>, min: int, max: int, i: nat)
    returns (path: seq<nat>)
    requires Dag(n, successors, min, max) && i < n
    ensures Walk(successors, path) && path[0] == 0 && path[|path| - 1] == n && i in path
  {
    path := seq(n + 1, k requires 0 <= k <= n => k);
    assert path[i] == i;
    forall k | 0 <= k < n ensures path[k + 1] in successors[path[k]] { assert successors[k][0] == k + 1; }
  }

  /** Edges lead strictly forward, so a walk visits later and later blocks and is no longer than the
      function. */
  lemma {:induction false} WalksMoveForward(n: nat, successors: seq<seq<nat>>, min: int, max: int, path: seq<nat>,
                                            k: nat)
    requires Dag(n, successors, min, max) && Walk(successors, path) && k < |path| && path[0] <= n
    ensures path[0] + k <= path[k] <= n
    decreases k
  {
    if k > 0 {
      WalksMoveForward(n, successors, min, max, path, k - 1);
      assert path[k - 1 + 1] in successors[path[k - 1]];
    }
  }

  /** A walk can always be continued until it reaches the exit. */
  lemma WalksEndAtExit(n: nat, successors: seq<seq<nat>>, min: int, max: int, path: seq<nat>)
    requires Dag(n, successors, min, max) && Walk(successors, path) && path[0] <= n
    ensures |path| <= n + 1
    ensures path[|path| - 1] == n || exists s :: Walk(successors, path + [s])
  {
    var last := path[|path| - 1];
    WalksMoveForward(n, successors, min, max, path, |path| - 1);
    if last < n {
      var longer := path + [successors[last][0]];
      forall k | 0 <= k < |longer| - 1 ensures longer[k] < |successors| && longer[k + 1] in successors[longer[k]] {
        if k < |path| - 1 { assert path[k + 1] in successors[path[k]]; }
      }
      assert Walk(successors, longer);
    }
  }

  // ---------------------------------------------------------------------------------------------
  // Generation

  class Function {
    const n: nat
    var successors: array<seq<nat>>
    var terminators: array<seq<Terminator>>

    ghost predicate Valid()
      reads this
    {
      successors.Length == n && terminators.Length == n + 1 && successors as object != terminators
    }

    constructor (n: nat)
      ensures Valid() && this.n == n && fresh(successors) && fresh(terminators)
      ensures forall i :: 0 <= i < n ==> successors[i] == []
      ensures forall i :: 0 <= i <= n ==> terminators[i] == []
    {
      this.n := n;
      successors := new seq<nat>[n](_ => []);
      terminators := new seq<Terminator>[n + 1](_ => []);
    }
  }

  /** Pick `count` different blocks out of the options, which must not run out. */
  method ChooseTargets(options: seq<nat>, count: nat) returns (targets: seq<nat>)
    requires count <= |options| && Distinct(options)
    ensures |targets| == count && Distinct(targets) && forall t :: t in targets ==> t in options
  {
    var left := options;
    targets := [];
    for k := 0 to count
      invariant |targets| == k && |left| == |options| - k && Distinct(left) && Distinct(targets)
      invariant forall t :: t in left ==> t in options && t !in targets
      invariant forall t :: t in targets ==> t in options
    {
      var pick :| 0 <= pick < |left|;
      var target := left[pick];
      assert target in left;
      targets := targets + [target];
      left := left[..pick] + left[pick + 1..];
    }
  }

  method ChooseSuccessors(n: nat, i: nat, min: int, max: int) returns (s: seq<nat>)
    requires i < n && min <= max <= 2
    ensures SuccessorsOf(n, i, s, min, max)
  {
    if i == n - 1 { return [n]; }
    var count: int :| min <= count <= max;
    if count + i > n { count := n - i; }
    s := [i + 1];
    var options := seq(n - i - 1, k requires 0 <= k < n - i - 1 => i + 2 + k);
    var others := ChooseTargets(options, if count < 1 then 0 else count - 1);
    assert forall t :: t in options ==> t >= i + 2;
    assert forall k :: 0 <= k < |others| ==> others[k] in others && others[k] in options && others[k] >= i + 2;
    s := s + others;
  }

  /** A function with a random graph of empty blocks. */
  method GenerateEmpty(hasConditionalBranch: bool, minPerBlock: int, maxPerBlock: int, minBlocks: nat, maxBlocks: nat)
    returns (f: Function)
    requires hasConditionalBranch ==> Least(minPerBlock, 2) <= Least(maxPerBlock, 2)
    requires minBlocks <= maxBlocks
    ensures f.Valid() && fresh(f) && fresh(f.successors) && fresh(f.terminators) && minBlocks <= f.n <= maxBlocks
    ensures if hasConditionalBranch then Dag(f.n, f.successors[..], Least(minPerBlock, 2), Least(maxPerBlock, 2))
            else Dag(f.n, f.successors[..], 1, 1)
    ensures f.terminators[f.n] == [Jump(TestCaseExit)] && forall i :: 0 <= i < f.n ==> f.terminators[i] == []
  {
    var min, max := 1, 1;
    if hasConditionalBranch { min, max := Least(minPerBlock, 2), Least(maxPerBlock, 2); }
    var n: nat :| minBlocks <= n <= maxBlocks;
    f := new Function(n);
    for i := 0 to n
      invariant f.Valid() && fresh(f.successors) && fresh(f.terminators)
      invariant forall k :: 0 <= k <= n ==> f.terminators[k] == []
      invariant forall k :: i <= k < n ==> f.successors[k] == []
      invariant forall k :: 0 <= k < i ==> SuccessorsOf(n, k, f.successors[k], min, max)
    {
      var s := ChooseSuccessors(n, i, min, max);
      f.successors[i] := s;
    }
    f.terminators[n] := f.terminators[n] + [Jump(TestCaseExit)];
  }

  function Least(a: int, b: int): int {
    if a < b then a else b
  }

  // ---------------------------------------------------------------------------------------------
  // Terminators

  /** The branches of a block with at most two successors: none to the exit, which follows the last
      block. */
  function Branches(n: nat, s: seq<nat>): seq<Terminator>
    requires |s| <= 2
  {
    if |s| == 2 then [Conditional(Block(s[0])), Jump(Block(s[1]))]
    else if |s| == 1 && s[0] != n then [Jump(Block(s[0]))]
    else []
  }

  /** A block without branches must be one that leads to the exit and is laid out right before it. */
  predicate FallsThroughRight(n: nat, i: nat, s: seq<nat>) {
    |s| > 0 && (s == [n] ==> i == n - 1)
  }

  /** Branches and fall-through realise the successors exactly when the fall-through is right. */
  lemma BranchesRealise(n: nat, i: nat, s: seq<nat>)
    requires |s| <= 2
    ensures Flow(Branches(n, s), Block(i + 1)) == Labels(s) <==> FallsThroughRight(n, i, s)
    ensures forall t :: t in Branches(n, s) ==> t.target in Labels(s)
  {
    assert forall k :: 0 <= k < |s| ==> Block(s[k]) in Labels(s);
    if |s| == 2 {
      assert Branches(n, s)[1..] == [Jump(Block(s[1]))];
      assert Labels(s) == {Block(s[0]), Block(s[1])};
    } else if |s| == 1 {
      assert Labels(s) == {Block(s[0])};
    } else {
      assert Block(i + 1) in Flow(Branches(n, s), Block(i + 1));
    }
  }

  /** In a generated graph every block's branches realise its successors. */
  lemma GeneratedBranchesRealise(n: nat, successors: seq<seq<nat>>, min: int, max: int, i: nat)
    requires Dag(n, successors, min, max) && min <= max <= 2 && i < n
    ensures |successors[i]| <= 2 && Flow(Branches(n, successors[i]), Block(i + 1)) == Labels(successors[i])
  {
    BranchesRealise(n, i, successors[i]);
  }

  /** Add the branches of every block; more than two successors are not supported. */
  method AddTerminators(f: Function) returns (ok: bool)
    requires f.Valid() && forall i :: 0 <= i < f.n ==> f.terminators[i] == []
    modifies f.terminators
    ensures ok <==> forall i :: 0 <= i < f.n ==> |f.successors[i]| <= 2
    ensures ok ==> forall i :: 0 <= i < f.n ==> f.terminators[i] == Branches(f.n, f.successors[i])
    ensures f.terminators[f.n] == old(f.terminators[f.n])
  {
    for i := 0 to f.n
      invariant f.terminators[f.n] == old(f.terminators[f.n])
      invariant forall k :: i <= k < f.n ==> f.terminators[k] == []
      invariant forall k :: 0 <= k < i ==> |f.successors[k]| <= 2 && f.terminators[k] == Branches(f.n, f.successors[k])
    {
      var s := f.successors[i];
      if |s| == 1 {
        if s[0] != f.n { AddFallthrough(f, i, s[0]); }
      } else if |s| == 2 {
        f.terminators[i] := f.terminators[i] + [Conditional(Block(s[0]))];
        AddFallthrough(f, i, s[1]);
      } else if |s| > 2 {
        return false;
      }
    }
    return true;
  }

  method AddFallthrough(f: Function, i: nat, destination: nat)
    requires f.Valid() && i < f.n
    modifies f.terminators
    ensures f.terminators[i] == old(f.terminators[i]) + [Jump(Block(destination))]
    ensures forall k :: 0 <= k <= f.n && k != i ==> f.terminators[k] == old(f.terminators[k])
  {
    f.terminators[i] := f.terminators[i] + [Jump(Block(destination))];
  }

  // ---------------------------------------------------------------------------------------------
  // Layout

  /** Blocks are laid out in order; block `i` occupies the addresses from start[i] up to start[i + 1]. */
  ghost predicate LaidOut(n: nat, start: seq<int>) {
    |start| == n + 1 && forall i, j :: 0 <= i < j <= n ==> start[i] <= start[j]
  }

  /** Every branch of a generated function is a forward branch: whatever the length of the blocks, its
      target does not lie before the end of its own block. */
  lemma GeneratedBranchesForward(n: nat, successors: seq<seq<nat>>, min: int, max: int, start: seq<int>,
                                 i: nat, t: Terminator)
    requires Dag(n, successors, min, max) && min <= max <= 2 && LaidOut(n, start) && i < n
    requires t in Branches(n, successors[i])
    ensures t.target.Block? && t.target.i <= n && start[i + 1] <= start[t.target.i]
  {
    BranchesRealise(n, i, successors[i]);
  }
}
