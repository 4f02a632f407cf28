/** The Merkle tree builder of the reward distribution script: leaves are sorted, an odd
    level repeats its last node, and every pair is hashed in sorted order. `H` stands for
    SHA-256 throughout and nothing is assumed about it except, where said, its length. */
module Merkle {
  import opened ByteOrder
  import opened Wrappers

  const DIGEST_LENGTH := 32

  /** A user of the distribution; both fields are already XDR-encoded. */
  datatype User = User(address: Bytes, amount: Bytes)

  function ComputeLeaf(H: Bytes -> Bytes, user: User): Bytes {
    H(user.address + user.amount)
  }

  function Leaves(H: Bytes -> Bytes, users: seq<User>): (leaves: seq<Bytes>)
    ensures |leaves| == |users|
    ensures forall i :: 0 <= i < |users| ==> leaves[i] == ComputeLeaf(H, users[i])
  {
    seq(|users|, i requires 0 <= i < |users| => ComputeLeaf(H, users[i]))
  }

  function SortedPair(a: Bytes, b: Bytes): Bytes {
    if Leq(a, b) then a + b else b + a
  }

  function PairHash(H: Bytes -> Bytes, a: Bytes, b: Bytes): Bytes {
    H(SortedPair(a, b))
  }

  // ---------- the tree ----------

  function Right(level: seq<Bytes>, i: nat): Bytes
    requires i < |level|
  {
    if i + 1 < |level| then level[i + 1] else level[i]
  }

  /** The parents of a level: node `k` covers nodes `2k` and `2k+1`, or `2k` twice. */
  function NextLevel(H: Bytes -> Bytes, level: seq<Bytes>): (next: seq<Bytes>)
    ensures |next| == (|level| + 1) / 2
    ensures forall k :: 0 <= k < |next| ==> next[k] == PairHash(H, level[2 * k], Right(level, 2 * k))
  {
    seq((|level| + 1) / 2, k requires 0 <= k < (|level| + 1) / 2 =>
      PairHash(H, level[2 * k], Right(level, 2 * k)))
  }

  /** All levels above and including `level`, down to a level of at most one node. */
  function TreeFrom(H: Bytes -> Bytes, level: seq<Bytes>): (tree: seq<seq<Bytes>>)
    ensures |tree| >= 1 && tree[0] == level
    ensures |tree[|tree| - 1]| <= 1 && (level != [] ==> |tree[|tree| - 1]| == 1)
    decreases |level|
  {
    if |level| <= 1 then [level] else [level] + TreeFrom(H, NextLevel(H, level))
  }

  method HashPairs(H: Bytes -> Bytes, currentLevel: seq<Bytes>) returns (nextLevel: seq<Bytes>)
    ensures nextLevel == NextLevel(H, currentLevel)
  {
    nextLevel := [];
    ghost var next := NextLevel(H, currentLevel);
    ghost var k := 0;
    var i := 0;
    while i < |currentLevel|
      invariant i == 2 * k && 0 <= k <= |next|
      invariant nextLevel == next[..k]
    {
      var left := currentLevel[i];
      var right := if i + 1 < |currentLevel| then currentLevel[i + 1] else left;
      assert next[k] == PairHash(H, left, right);
      nextLevel := nextLevel + [PairHash(H, left, right)];
      i, k := i + 2, k + 1;
    }
  }

  lemma AppendAssociative<T>(a: seq<T>, b: seq<T>, c: seq<T>)
    ensures (a + b) + c == a + (b + c)
  {
  }

  method BuildLevels(H: Bytes -> Bytes, sorted: seq<Bytes>) returns (tree: seq<seq<Bytes>>)
    ensures tree == TreeFrom(H, sorted)
  {
    var currentLevel := sorted;
    tree := [currentLevel];
    ghost var below := [];
    AppendAssociative([], [], TreeFrom(H, sorted));
    while |currentLevel| > 1
      invariant tree == below + [currentLevel]
      invariant below + TreeFrom(H, currentLevel) == TreeFrom(H, sorted)
      decreases |currentLevel|
    {
      var nextLevel := HashPairs(H, currentLevel);
      AppendAssociative(below, [currentLevel], TreeFrom(H, nextLevel));
      below := tree;
      tree := tree + [nextLevel];
      currentLevel := nextLevel;
    }
  }

  method BuildTree(H: Bytes -> Bytes, leaves: seq<Bytes>) returns (tree: seq<seq<Bytes>>)
    ensures tree == TreeFrom(H, Sort(leaves))
  {
    tree := BuildLevels(H, Sort(leaves));
  }

  function Root(tree: seq<seq<Bytes>>): Option<Bytes> {
    if tree != [] && tree[|tree| - 1] != [] then Some(tree[|tree| - 1][0]) else None
  }

  // ---------- proofs ----------

  /** Index of the first node equal to `x`, or -1. */
  function IndexOf(level: seq<Bytes>, x: Bytes): (i: int)
    ensures -1 <= i < |level|
    ensures i >= 0 ==> level[i] == x && x !in level[..i]
    ensures i == -1 <==> x !in level
  {
    if level == [] then -1
    else if level[0] == x then 0
    else
      var rest := IndexOf(level[1..], x);
      assert level == [level[0]] + level[1..];
      if rest == -1 then -1
      else
        assert level[..rest + 1] == [level[0]] + level[1..][..rest];
        rest + 1
  }

  /** The neighbour of node `i`; the last node of an odd level is its own neighbour. */
  function Sibling(level: seq<Bytes>, i: nat): Bytes
    requires i < |level|
  {
    if i % 2 == 1 then level[i - 1]
    else if i + 1 < |level| then level[i + 1]
    else level[i]
  }

  function Prepend(steps: seq<Bytes>, proof: Option<seq<Bytes>>): Option<seq<Bytes>> {
    match proof
    case None => None
    case Some(rest) => Some(steps + rest)
  }

  /** The proof that the value search produces, or `None` where the script throws
      because the searched value is missing from a level. */
  function ProofFrom(H: Bytes -> Bytes, tree: seq<seq<Bytes>>, x: Bytes): Option<seq<Bytes>> {
    if |tree| <= 1 then Some([])
    else
      var i := IndexOf(tree[0], x);
      if i == -1 then None
      else
        var s := Sibling(tree[0], i);
        Prepend([s], ProofFrom(H, tree[1..], PairHash(H, x, s)))
  }

  lemma {:induction false} FirstIndexIsUnique(level: seq<Bytes>, x: Bytes, i: nat)
    requires i < |level| && level[i] == x && x !in level[..i]
    ensures IndexOf(level, x) == i
  {
    if i > 0 {
      assert level[..i] == [level[0]] + level[1..][..i - 1];
      FirstIndexIsUnique(level[1..], x, i - 1);
    }
  }

  method FindIndex(level: seq<Bytes>, x: Bytes) returns (index: int)
    ensures index == IndexOf(level, x)
  {
    index := 0;
    while index < |level|
      invariant 0 <= index <= |level|
      invariant x !in level[..index]
    {
      if level[index] == x {
        FirstIndexIsUnique(level, x, index);
        return;
      }
      assert level[..index + 1] == level[..index] + [level[index]];
      index := index + 1;
    }
    assert level[..index] == level;
    return -1;
  }

  lemma PrependTwice(a: seq<Bytes>, b: seq<Bytes>, proof: Option<seq<Bytes>>)
    ensures Prepend(a, Prepend(b, proof)) == Prepend(a + b, proof)
  {
    if proof.Some? {
      assert a + (b + proof.value) == (a + b) + proof.value;
    }
  }

  method GetProof(H: Bytes -> Bytes, tree: seq<seq<Bytes>>, leaf: Bytes) returns (proof: Option<seq<Bytes>>)
    requires tree != []
    ensures proof == ProofFrom(H, tree, leaf)
  {
    hide PairHash;
    var currentHash := leaf;
    var steps: seq<Bytes> := [];
    var i := 0;
    ghost var full := ProofFrom(H, tree, leaf);
    assert tree[0..] == tree;
    assert full.Some? ==> [] + full.value == full.value;
    while i < |tree| - 1
      invariant 0 <= i <= |tree| - 1
      invariant full == Prepend(steps, ProofFrom(H, tree[i..], currentHash))
    {
      var level := tree[i];
      var index := FindIndex(level, currentHash);
      assert tree[i..][0] == level && tree[i..][1..] == tree[i + 1..];
      if index == -1 {
        return None;
      }
      var siblingIndex := if index % 2 == 0 then index + 1 else index - 1;
      if siblingIndex >= |level| {
        siblingIndex := index;
      }
      var sibling := level[siblingIndex];
      assert sibling == Sibling(level, index);
      currentHash := PairHash(H, currentHash, sibling);
      i := i + 1;
      PrependTwice(steps, [sibling], ProofFrom(H, tree[i..], currentHash));
      steps := steps + [sibling];
    }
    assert steps + [] == steps;
    return Some(steps);
  }

  /** What a verifier computes from a claimed leaf and its proof. */
  function Fold(H: Bytes -> Bytes, x: Bytes, proof: seq<Bytes>): Bytes
    decreases |proof|
  {
    if proof == [] then x else Fold(H, PairHash(H, x, proof[0]), proof[1..])
  }

  /** `proof` has one step per level above the leaves and leads from `x` to the root. */
  predicate Proves(H: Bytes -> Bytes, tree: seq<seq<Bytes>>, x: Bytes, proof: seq<Bytes>) {
    |proof| == |tree| - 1 && Root(tree) == Some(Fold(H, x, proof))
  }

  // ---------- completeness ----------

  lemma PairHashCommutes(H: Bytes -> Bytes, a: Bytes, b: Bytes)
    ensures PairHash(H, a, b) == PairHash(H, b, a)
  {
    CompareFlip(a, b);
    CompareEqual(a, b);
  }

  /** Hashing a node with its neighbour gives its parent. */
  lemma ParentOf(H: Bytes -> Bytes, level: seq<Bytes>, i: nat)
    requires i < |level|
    ensures i / 2 < |NextLevel(H, level)|
    ensures PairHash(H, level[i], Sibling(level, i)) == NextLevel(H, level)[i / 2]
  {
    PairHashCommutes(H, level[i], Sibling(level, i));
    assert i % 2 == 0 ==> i == 2 * (i / 2);
    assert i % 2 == 1 ==> i - 1 == 2 * (i / 2) && Right(level, i - 1) == level[i];
  }

  /** From any node of a level, the searched proof exists, has one step per level and
      folds to the root. Read at an upper level, it also says that a proof which is too
      short is accepted for an inner node, so verifiers must fix the proof length. */
  lemma {:induction false} ProofFoldsToRoot(H: Bytes -> Bytes, level: seq<Bytes>, x: Bytes)
    requires x in level
    ensures var tree := TreeFrom(H, level);
            var proof := ProofFrom(H, tree, x);
            proof.Some? && Proves(H, tree, x, proof.value)
    decreases |level|
  {
    if |level| > 1 {
      var next := NextLevel(H, level);
      var i := IndexOf(level, x);
      ParentOf(H, level, i);
      ProofFoldsToRoot(H, next, next[i / 2]);
      assert TreeFrom(H, level)[1..] == TreeFrom(H, next);
      var rest := ProofFrom(H, TreeFrom(H, next), next[i / 2]).value;
      assert ([Sibling(level, i)] + rest)[1..] == rest;
    }
  }

  lemma MembersSurviveSort(leaves: seq<Bytes>, x: Bytes)
    ensures x in Sort(leaves) <==> x in leaves
  {
    SortSorts(leaves);
    assert x in Sort(leaves) <==> x in multiset(Sort(leaves));
    assert x in leaves <==> x in multiset(leaves);
  }

  /** Every leaf, duplicates and odd levels included, gets a proof that folds to the root,
      and beyond a single leaf nothing else gets one. */
  lemma ProofsAreComplete(H: Bytes -> Bytes, leaves: seq<Bytes>, x: Bytes)
    ensures var tree := TreeFrom(H, Sort(leaves));
            var proof := ProofFrom(H, tree, x);
            && (x in leaves ==> proof.Some? && Proves(H, tree, x, proof.value))
            && (|leaves| > 1 && x !in leaves ==> proof == None)
  {
    MembersSurviveSort(leaves, x);
    SortSorts(leaves);
    if x in leaves {
      ProofFoldsToRoot(H, Sort(leaves), x);
    }
  }

  // ---------- what is hashed ----------

  /** A node is hashed from both its children, whichever way round they are given, with the
      one that comes first in byte order in front. */
  lemma PairsAreOrdered(H: Bytes -> Bytes, a: Bytes, b: Bytes)
    requires |a| == |b|
    ensures PairHash(H, a, b) == PairHash(H, b, a)
    ensures Before(a, b) ==> PairHash(H, a, b) == H(a + b)
    ensures Before(b, a) ==> PairHash(H, a, b) == H(b + a)
    ensures a == b ==> PairHash(H, a, b) == H(a + a)
    ensures a == b || Before(a, b) || Before(b, a)
  {
    CompareIsLexicographic(a, b);
    CompareIsLexicographic(b, a);
  }

  /** A leaf is hashed from the address with the amount behind it. */
  lemma LeafPayload(H: Bytes -> Bytes, user: User, payload: Bytes)
    requires |payload| == |user.address| + |user.amount|
    requires payload[..|user.address|] == user.address && payload[|user.address|..] == user.amount
    ensures ComputeLeaf(H, user) == H(payload)
  {
    assert payload == user.address + user.amount;
  }

  // ---------- soundness ----------

  /** What building the tree over a level hashes: one sorted pair per inner node. */
  function TreeInputs(H: Bytes -> Bytes, level: seq<Bytes>): seq<Bytes>
    decreases |level|
  {
    if |level| <= 1 then [] else LevelInputs(level) + TreeInputs(H, NextLevel(H, level))
  }

  function LevelInputs(level: seq<Bytes>): (inputs: seq<Bytes>)
    ensures |inputs| == (|level| + 1) / 2
    ensures forall k :: 0 <= k < |inputs| ==> inputs[k] == SortedPair(level[2 * k], Right(level, 2 * k))
  {
    seq((|level| + 1) / 2, k requires 0 <= k < (|level| + 1) / 2 => SortedPair(level[2 * k], Right(level, 2 * k)))
  }

  /** What folding a proof hashes: one sorted pair per step. */
  function FoldInputs(H: Bytes -> Bytes, x: Bytes, proof: seq<Bytes>): seq<Bytes>
    decreases |proof|
  {
    if proof == [] then []
    else [SortedPair(x, proof[0])] + FoldInputs(H, PairHash(H, x, proof[0]), proof[1..])
  }

  /** Looks for two different inputs with the same hash, one from the tree and one from the
      fold: it goes up to the first level that the fold enters. */
  function FindCollision(H: Bytes -> Bytes, level: seq<Bytes>, x: Bytes, proof: seq<Bytes>): Option<(Bytes, Bytes)>
    decreases |proof|
  {
    if proof == [] then None
    else
      var next := NextLevel(H, level);
      var i := IndexOf(next, PairHash(H, x, proof[0]));
      if i == -1 then FindCollision(H, next, PairHash(H, x, proof[0]), proof[1..])
      else Some((SortedPair(level[2 * i], Right(level, 2 * i)), SortedPair(x, proof[0])))
  }

  /** `c` holds two different inputs with the same hash, drawn from these two lists. */
  predicate Collides(H: Bytes -> Bytes, c: (Bytes, Bytes), treeInputs: seq<Bytes>, foldInputs: seq<Bytes>) {
    c.0 in treeInputs && c.1 in foldInputs && c.0 != c.1 && H(c.0) == H(c.1)
  }

  ghost predicate Digests(s: seq<Bytes>) {
    forall i :: 0 <= i < |s| ==> |s[i]| == DIGEST_LENGTH
  }

  /** For digests, the hash input determines the unordered pair. */
  lemma SortedPairInjective(a: Bytes, b: Bytes, c: Bytes, d: Bytes)
    requires |a| == |b| == |c| == |d| == DIGEST_LENGTH
    requires SortedPair(a, b) == SortedPair(c, d)
    ensures (a == c && b == d) || (a == d && b == c)
  {
    var p, q := SortedPair(a, b), SortedPair(c, d);
    assert p[..DIGEST_LENGTH] == (if Leq(a, b) then a else b);
    assert p[DIGEST_LENGTH..] == (if Leq(a, b) then b else a);
    assert q[..DIGEST_LENGTH] == (if Leq(c, d) then c else d);
    assert q[DIGEST_LENGTH..] == (if Leq(c, d) then d else c);
  }

  /** If the parent of `x` and `s` is found on the next level but `x` is not on this one, the
      node found there was hashed from something else. */
  lemma StepDown(H: Bytes -> Bytes, level: seq<Bytes>, x: Bytes, s: Bytes)
    requires Digests(level) && |x| == |s| == DIGEST_LENGTH
    requires PairHash(H, x, s) in NextLevel(H, level) && x !in level
    ensures var i := IndexOf(NextLevel(H, level), PairHash(H, x, s));
            Collides(H, (SortedPair(level[2 * i], Right(level, 2 * i)), SortedPair(x, s)), LevelInputs(level),
                [SortedPair(x, s)])
  {
    var i := IndexOf(NextLevel(H, level), PairHash(H, x, s));
    var left, right := level[2 * i], Right(level, 2 * i);
    assert LevelInputs(level)[i] == SortedPair(left, right);
    if SortedPair(x, s) == SortedPair(left, right) {
      SortedPairInjective(x, s, left, right);
    }
  }

  lemma {:induction false} FoldReachingLevelsStartsInside(
    H: Bytes -> Bytes, level: seq<Bytes>, x: Bytes, proof: seq<Bytes>)
    requires forall y :: |H(y)| == DIGEST_LENGTH
    requires Digests(level) && Digests(proof) && |x| == DIGEST_LENGTH && level != []
    requires Proves(H, TreeFrom(H, level), x, proof) && x !in level
    ensures var c := FindCollision(H, level, x, proof);
            c.Some? && Collides(H, c.value, TreeInputs(H, level), FoldInputs(H, x, proof))
    decreases |level|
  {
    if |level| > 1 {
      var next := NextLevel(H, level);
      assert TreeFrom(H, level)[1..] == TreeFrom(H, next);
      if PairHash(H, x, proof[0]) in next {
        StepDown(H, level, x, proof[0]);
      } else {
        FoldReachingLevelsStartsInside(H, next, PairHash(H, x, proof[0]), proof[1..]);
      }
    }
  }

  /** A proof of tree depth that reaches the root starts from a real leaf, unless two of the
      inputs hashed, one in building the tree and one in folding the proof, are different and
      have the same hash; and then `FindCollision` finds such a pair. */
  lemma ProofsAreSound(H: Bytes -> Bytes, leaves: seq<Bytes>, x: Bytes, proof: seq<Bytes>)
    requires forall y :: |H(y)| == DIGEST_LENGTH
    requires Digests(leaves) && Digests(proof) && |x| == DIGEST_LENGTH && leaves != []
    requires Proves(H, TreeFrom(H, Sort(leaves)), x, proof)
    ensures var c := FindCollision(H, Sort(leaves), x, proof);
            x !in leaves ==> c.Some? && Collides(H, c.value, TreeInputs(H, Sort(leaves)), FoldInputs(H, x, proof))
    ensures (forall p, q :: p in TreeInputs(H, Sort(leaves)) && q in FoldInputs(H, x, proof) && H(p) == H(q) ==> p == q)
            ==> x in leaves
  {
    SortSorts(leaves);
    forall i | 0 <= i < |leaves| ensures |Sort(leaves)[i]| == DIGEST_LENGTH {
      MembersSurviveSort(leaves, Sort(leaves)[i]);
    }
    MembersSurviveSort(leaves, x);
    if x !in leaves {
      FoldReachingLevelsStartsInside(H, Sort(leaves), x, proof);
    }
  }

  // ---------- order independence and depth ----------

  /** Permuting the leaves changes neither the root nor any proof. */
  lemma TreeForgetsOrder(H: Bytes -> Bytes, a: seq<Bytes>, b: seq<Bytes>)
    requires multiset(a) == multiset(b)
    ensures TreeFrom(H, Sort(a)) == TreeFrom(H, Sort(b))
  {
    SortCanonical(a, b);
  }

  function Pow2(n: nat): nat {
    if n == 0 then 1 else 2 * Pow2(n - 1)
  }

  /** Proofs are as short as a binary tree over the leaves allows. */
  lemma {:induction false} DepthIsLogarithmic(H: Bytes -> Bytes, level: seq<Bytes>)
    requires level != []
    ensures var depth := |TreeFrom(H, level)| - 1;
            |level| <= Pow2(depth) && (depth > 0 ==> Pow2(depth - 1) < |level|)
    decreases |level|
  {
    if |level| > 1 {
      var next := NextLevel(H, level);
      DepthIsLogarithmic(H, next);
      var depth := |TreeFrom(H, next)| - 1;
      assert |TreeFrom(H, level)| - 1 == depth + 1;
      assert Pow2(depth + 1) == 2 * Pow2(depth);
    }
  }

  // ---------- the script ----------

  datatype MerkleData = MerkleData(root: Bytes, proofs: seq<seq<Bytes>>)

  lemma TreeHasRoot(H: Bytes -> Bytes, leaves: seq<Bytes>)
    ensures Root(TreeFrom(H, Sort(leaves))).Some? <==> leaves != []
  {
    SortSorts(leaves);
  }

  method ProofsForAll(H: Bytes -> Bytes, leaves: seq<Bytes>, tree: seq<seq<Bytes>>)
    returns (proofs: seq<seq<Bytes>>)
    requires tree != []
    requires forall i :: 0 <= i < |leaves| ==>
               var proof := ProofFrom(H, tree, leaves[i]);
               proof.Some? && Proves(H, tree, leaves[i], proof.value)
    ensures |proofs| == |leaves|
    ensures forall i :: 0 <= i < |leaves| ==> Proves(H, tree, leaves[i], proofs[i])
  {
    proofs := [];
    var i := 0;
    while i < |leaves|
      invariant 0 <= i <= |leaves| && |proofs| == i
      invariant forall k :: 0 <= k < i ==> Proves(H, tree, leaves[k], proofs[k])
    {
      var proof := GetProof(H, tree, leaves[i]);
      proofs := proofs + [proof.value];
      i := i + 1;
    }
  }

  /** The whole script: an empty user list throws, every other list yields the root and a
      proof for each user, in input order, that folds from the user's leaf to that root. */
  method GenerateMerkleData(H: Bytes -> Bytes, users: seq<User>) returns (data: Option<MerkleData>)
    ensures data.Some? <==> users != []
    ensures data.Some? ==>
              var tree := TreeFrom(H, Sort(Leaves(H, users)));
              && Some(data.value.root) == Root(tree)
              && |data.value.proofs| == |users|
              && forall i :: 0 <= i < |users| ==>
                    Proves(H, tree, ComputeLeaf(H, users[i]), data.value.proofs[i])
  {
    var leaves := Leaves(H, users);
    var tree := BuildTree(H, leaves);
    TreeHasRoot(H, leaves);
    if Root(tree) == None {
      return None;
    }
    forall i | 0 <= i < |leaves| {
      ProofsAreComplete(H, leaves, leaves[i]);
    }
    var proofs := ProofsForAll(H, leaves, tree);
    return Some(MerkleData(Root(tree).value, proofs));
  }
}
