/** The coinbase merkle branch of a block template (`src/merkle.c`).
  *
  * `cashstratum_merkle_branch` hashes the transaction hashes of a template in place,
  * leaving slot 0 (the coinbase, unknown until a miner submits) alone, and hands out
  * the siblings of that slot level by level.  A share is later checked by folding its
  * coinbase hash through that branch (`src/generator.c`, `sv2_proxy_custom_solve`).
  *
  * `hash` stands for the double SHA-256 of two concatenated 32-byte nodes.
  */
module Merkle {

  const MAX_DEPTH := 32
  const SIZE_MAX := 0xffff_ffff_ffff_ffff

  function Pow2(n: nat): (p: nat)
    ensures p > 0
  {
    if n == 0 then 1 else 2 * Pow2(n - 1)
  }

  /** How often n halves, rounding up, before one node is left. */
  function Halvings(n: nat): nat {
    if n <= 1 then 0 else 1 + Halvings(n / 2 + n % 2)
  }

  /** One level up the tree: adjacent nodes paired, the last one with itself when odd. */
  function Level<T>(hash: (T, T) -> T, s: seq<T>): (r: seq<T>)
    ensures |r| == |s| / 2 + |s| % 2
  {
    if |s| == 0 then []
    else if |s| == 1 then [hash(s[0], s[0])]
    else [hash(s[0], s[1])] + Level(hash, s[2..])
  }

  /** The Bitcoin merkle root. */
  function Root<T>(hash: (T, T) -> T, s: seq<T>): T
    requires |s| > 0
    decreases |s|
  {
    if |s| == 1 then s[0] else Root(hash, Level(hash, s))
  }

  /** Hash a leaf up through the siblings on its path, all of them to its right. */
  function Fold<T>(hash: (T, T) -> T, c: T, branch: seq<T>): T {
    if branch == [] then c else Fold(hash, hash(c, branch[0]), branch[1..])
  }

  /** The siblings of leaf 0, as a function of the other leaves only. */
  function Branch<T>(hash: (T, T) -> T, others: seq<T>): seq<T>
    decreases |others|
  {
    if others == [] then [] else [others[0]] + Branch(hash, Level(hash, others[1..]))
  }

  /** s with its last node repeated when their number is odd and one was left to pair. */
  function Evened<T>(s: seq<T>): (r: seq<T>)
    ensures |r| == |s| + |s| % 2
  {
    if |s| % 2 == 1 then s + [s[|s| - 1]] else s
  }

  lemma {:induction false} PairAt<T>(hash: (T, T) -> T, s: seq<T>, i: nat)
    requires 2 * i < |s|
    ensures 2 * i + 1 < |Evened(s)| && i < |Level(hash, s)|
    ensures Level(hash, s)[i] == hash(Evened(s)[2 * i], Evened(s)[2 * i + 1])
  {
    if i > 0 {
      PairAt(hash, s[2..], i - 1);
    }
  }

  /** The branch is as long as the tree is high, ceil(log2 n). */
  lemma {:induction false} BranchLength<T>(hash: (T, T) -> T, others: seq<T>)
    ensures |Branch(hash, others)| == Halvings(|others| + 1)
    decreases |others|
  {
    if others != [] {
      BranchLength(hash, Level(hash, others[1..]));
    }
  }

  lemma BranchStep<T>(hash: (T, T) -> T, taken: seq<T>, todo: seq<T>)
    requires todo != []
    ensures taken + [todo[0]] + Branch(hash, Level(hash, todo[1..])) == taken + Branch(hash, todo)
  {
    hide Level;
    var rest := Branch(hash, Level(hash, todo[1..]));
    assert taken + [todo[0]] + rest == taken + ([todo[0]] + rest);
  }

  lemma {:induction false} HalvingsIsCeilLog2(n: nat)
    requires n >= 1
    ensures n <= Pow2(Halvings(n))
    ensures n > 1 ==> Pow2(Halvings(n) - 1) < n
  {
    if n > 1 {
      HalvingsIsCeilLog2(n / 2 + n % 2);
    }
  }

  lemma {:induction false} Pow2Monotone(a: nat, b: nat)
    requires a <= b
    ensures Pow2(a) <= Pow2(b)
  {
    if a < b {
      Pow2Monotone(a, b - 1);
    }
  }

  lemma DepthBound(n: nat)
    requires n >= 1
    ensures Halvings(n) <= MAX_DEPTH <==> n <= 0x1_0000_0000
  {
    HalvingsIsCeilLog2(n);
    assert Pow2(8) == 0x100 && Pow2(16) == 0x1_0000 && Pow2(24) == 0x100_0000 && Pow2(32) == 0x1_0000_0000;
    if Halvings(n) <= MAX_DEPTH {
      Pow2Monotone(Halvings(n), MAX_DEPTH);
    } else {
      Pow2Monotone(MAX_DEPTH, Halvings(n) - 1);
    }
  }

  /** Whatever coinbase hash c a miner ends up with, folding it through the branch that
    * was computed before c existed gives the merkle root of the finished block. */
  lemma {:induction false} FoldedBranchIsRoot<T>(hash: (T, T) -> T, c: T, others: seq<T>)
    ensures Fold(hash, c, Branch(hash, others)) == Root(hash, [c] + others)
    decreases |others|
  {
    if others != [] {
      var leaves := [c] + others;
      assert leaves[2..] == others[1..];
      assert Level(hash, leaves) == [hash(c, others[0])] + Level(hash, others[1..]);
      FoldedBranchIsRoot(hash, hash(c, others[0]), Level(hash, others[1..]));
    }
  }

  /** The fold of the solve path, one hash for each level. */
  method FoldBranch<T>(hash: (T, T) -> T, c: T, branch: seq<T>) returns (root: T)
    ensures root == Fold(hash, c, branch)
  {
    root := c;
    for i := 0 to |branch|
      invariant Fold(hash, root, branch[i..]) == Fold(hash, c, branch)
    {
      assert branch[i..][1..] == branch[i + 1..];
      root := hash(root, branch[i]);
    }
  }

  /** One level in place: slots 2.. are paired up into slots 1.., the last of an odd number
    * having first been copied into the spare slot behind it. */
  method HashLevel<T>(hash: (T, T) -> T, hashes: array<T>, leaves: nat) returns (half: nat)
    requires 1 < leaves < hashes.Length
    modifies hashes
    ensures half == leaves / 2 + leaves % 2
    ensures hashes[1..half] == Level(hash, old(hashes[2..leaves]))
    ensures hashes[0] == old(hashes[0])
    ensures forall k :: leaves < k < hashes.Length ==> hashes[k] == old(hashes[k])
  {
    hide Level;
    ghost var rest := hashes[2..leaves];
    var live := leaves;
    if live % 2 == 1 {
      hashes[live] := hashes[live - 1];
      live := live + 1;
    }
    assert hashes[2..live] == Evened(rest);
    PairUp(hash, hashes, live, rest);
    half := live / 2;
  }

  /** The inner loop: slots 2..live, an even number of them, into half as many. */
  method PairUp<T>(hash: (T, T) -> T, hashes: array<T>, live: nat, ghost rest: seq<T>)
    requires 2 <= live <= hashes.Length && live % 2 == 0 && hashes[2..live] == Evened(rest)
    modifies hashes
    ensures hashes[1..live / 2] == Level(hash, rest)
    ensures hashes[0] == old(hashes[0])
    ensures forall k :: live <= k < hashes.Length ==> hashes[k] == old(hashes[k])
  {
    ghost var row, pairs := hashes[2..live], Level(hash, rest);
    hide Level, Evened;
    var i := 2;
    ghost var m := 1;
    while i < live
      invariant i == 2 * m <= live == |row| + 2
      invariant forall k :: i <= k < live ==> hashes[k] == row[k - 2]
      invariant forall k :: 1 <= k < m ==> hashes[k] == pairs[k - 1]
      invariant forall k :: live <= k < hashes.Length ==> hashes[k] == old(hashes[k])
      invariant hashes[0] == old(hashes[0])
    {
      PairAt(hash, rest, m - 1);
      hashes[i / 2] := hash(hashes[i], hashes[i + 1]);
      i, m := i + 2, m + 1;
    }
    assert |pairs| == m - 1;
  }

  /** The depth the tree will need, before anything is written. */
  method RequiredDepth(leaves: nat) returns (required: nat)
    requires leaves >= 1
    ensures required == Halvings(leaves)
    ensures required <= MAX_DEPTH <==> leaves <= 0x1_0000_0000
  {
    required := 0;
    var n := leaves;
    while n > 1
      invariant n >= 1 && required + Halvings(n) == Halvings(leaves)
    {
      n := n / 2 + n % 2;
      required := required + 1;
    }
    DepthBound(leaves);
  }

  /** The climb: each level hands out the node next to slot 0 and is then halved in place. */
  method TakeSiblings<T>(hash: (T, T) -> T, hashes: array<T>, leaves: nat, branch: array<T>)
    returns (depth: nat)
    requires 1 <= leaves < hashes.Length && branch != hashes
    requires Halvings(leaves) <= branch.Length
    modifies hashes, branch
    ensures depth == Halvings(leaves)
    ensures branch[..depth] == Branch(hash, old(hashes[1..leaves]))
    ensures hashes[0] == old(hashes[0])
    ensures forall i :: leaves < i < hashes.Length ==> hashes[i] == old(hashes[i])
  {
    hide Level;
    depth := 0;
    ghost var others := hashes[1..leaves];
    BranchLength(hash, others);
    ghost var taken: seq<T>, todo := [], others;
    var live := leaves;
    while live > 1
      invariant 1 <= live <= leaves && hashes[1..live] == todo
      invariant depth == |taken| <= |Branch(hash, others)| && branch[..depth] == taken
      invariant taken + Branch(hash, todo) == Branch(hash, others)
      invariant forall i :: leaves < i < hashes.Length ==> hashes[i] == old(hashes[i])
      invariant hashes[0] == old(hashes[0])
    {
      assert hashes[2..live] == todo[1..] && hashes[1] == todo[0];
      branch[depth] := hashes[1];
      depth := depth + 1;
      live := HashLevel(hash, hashes, live);
      BranchStep(hash, taken, todo);
      taken, todo := taken + [todo[0]], Level(hash, todo[1..]);
    }
    assert todo == [];
  }

  /** `cashstratum_merkle_branch`.  `hashes` holds `leaves` nodes and one spare slot; on
    * success the first `depth` entries of `branch` are the siblings of slot 0, whatever
    * stood in slot 0 (FoldedBranchIsRoot says what they are good for). */
  method ComputeBranch<T>(hash: (T, T) -> T, hashes: array<T>, leaves: nat, branch: array<T>)
    returns (ok: bool, depth: nat)
    requires leaves < hashes.Length && branch.Length == MAX_DEPTH && branch != hashes
    modifies hashes, branch
    ensures ok <==> 1 <= leaves <= 0x1_0000_0000
    ensures !ok ==> hashes[..] == old(hashes[..]) && branch[..] == old(branch[..])
    ensures ok ==> depth == Halvings(leaves) <= MAX_DEPTH
    ensures ok ==> branch[..depth] == Branch(hash, old(hashes[1..leaves]))
    ensures hashes[0] == old(hashes[0])
    ensures forall i :: leaves < i < hashes.Length ==> hashes[i] == old(hashes[i])
  {
    ok, depth := false, 0;
    if leaves == 0 || leaves > SIZE_MAX / 32 - 1 {
      return;
    }
    var required := RequiredDepth(leaves);
    if required > MAX_DEPTH {
      return;
    }
    depth := TakeSiblings(hash, hashes, leaves, branch);
    ok := true;
  }
}
