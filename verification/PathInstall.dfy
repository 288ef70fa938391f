/** Filtered direct paths and the installation of a new path (mls/tree/treekem.go). */
module PathInstall {
  import opened TreeMath
  import opened Symbolic
  import opened Ratchet

  /** Resolution of the child of L's level-k ancestor that does not hold L. */
  function CopathResolution(nodes: Nodes, L: nat, k: nat): seq<nat>
    requires k > 0
  {
    Resolution(nodes, k - 1, Flip(Shr(L, k - 1)))
  }

  /** The level-k ancestor of L is on its filtered direct path. */
  predicate Filtered(nodes: Nodes, L: nat, k: nat) {
    k > 0 && CopathResolution(nodes, L, k) != []
  }

  /** Number of filtered ancestors of L up to level k. */
  function Rank(nodes: Nodes, L: nat, k: nat): nat {
    if k == 0 then 0 else Rank(nodes, L, k - 1) + if Filtered(nodes, L, k) then 1 else 0
  }

  /** Filtered levels up to k, bottom-up. */
  function FilteredLevels(nodes: Nodes, L: nat, k: nat): (levels: seq<nat>)
    ensures |levels| == Rank(nodes, L, k)
    ensures forall i :: 0 <= i < |levels| ==> 0 < levels[i] <= k
  {
    if k == 0 then []
    else FilteredLevels(nodes, L, k - 1) + if Filtered(nodes, L, k) then [k] else []
  }

  /** The key given to the level-k ancestor: keys are listed per filtered node. */
  function KeyAt(nodes: Nodes, L: nat, pubs: seq<PublicKey>, k: nat): PublicKey {
    var r := Rank(nodes, L, k);
    if 0 < r <= |pubs| then pubs[r - 1] else PublicKey(Empty)
  }

  function SiblingHash(nodes: Nodes, L: nat, k: nat): Term
    requires k > 0
  {
    TreeHash(nodes, k - 1, Flip(Shr(L, k - 1)), {})
  }

  /** The parent hash carried by the path node at level k (level 0: the leaf). */
  function HashAbove(nodes: Nodes, L: nat, pubs: seq<PublicKey>, k: nat, H: nat): Term
    decreases H - k
  {
    if k >= H then Empty
    else if Filtered(nodes, L, k + 1) then
      ParentHash(KeyAt(nodes, L, pubs, k + 1), HashAbove(nodes, L, pubs, k + 1, H), SiblingHash(nodes, L, k + 1))
    else HashAbove(nodes, L, pubs, k + 1, H)
  }

  function PathSlot(nodes: Nodes, L: nat, pubs: seq<PublicKey>, k: nat): Slot {
    if Filtered(nodes, L, k) then
      ParentSlot(ParentNode(KeyAt(nodes, L, pubs, k), HashAbove(nodes, L, pubs, k, Height(nodes)), []))
    else Blank
  }

  /** Blank L's direct path, then install keys and parent hashes on its filtered part. */
  function Installed(nodes: Nodes, L: nat, pubs: seq<PublicKey>): (r: Nodes)
    ensures |r| == |nodes|
  {
    seq(|nodes|, i requires 0 <= i < |nodes| =>
      if OnPath(i, L) then PathSlot(nodes, L, pubs, Level(i)) else nodes[i])
  }

  function LeafParentHash(nodes: Nodes, L: nat, pubs: seq<PublicKey>): Term {
    HashAbove(nodes, L, pubs, 0, Height(nodes))
  }

  function Merged(nodes: Nodes, L: nat, pubs: seq<PublicKey>, leaf: LeafNode): (r: Nodes)
    requires 2 * L < |nodes|
    ensures |r| == |nodes|
  {
    Installed(nodes, L, pubs)[2 * L := LeafSlot(leaf)]
  }

  lemma {:induction false} AtInstalled(nodes: Nodes, L: nat, pubs: seq<PublicKey>, k: nat, j: nat)
    ensures At(Installed(nodes, L, pubs), k, j) ==
            if k > 0 && Shr(L, k) == j && Index(k, j) < |nodes| then PathSlot(nodes, L, pubs, k) else At(nodes, k, j)
  {
    IndexCoordinates(k, j);
  }

  lemma {:induction false} AtMerged(nodes: Nodes, L: nat, pubs: seq<PublicKey>, leaf: LeafNode, k: nat, j: nat)
    requires 2 * L < |nodes| && Complete(nodes)
    ensures At(Merged(nodes, L, pubs, leaf), k, j) ==
            if Shr(L, k) != j then At(nodes, k, j)
            else if k == 0 then LeafSlot(leaf)
            else if k <= Height(nodes) then PathSlot(nodes, L, pubs, k) else Blank
  {
    AtInstalled(nodes, L, pubs, k, j);
    AtLeaf(Installed(nodes, L, pubs), L, LeafSlot(leaf), k, j);
    if Shr(L, k) == j && k > 0 { AncestorInRange(nodes, L, k); }
  }

  /** An in-range leaf has its ancestors in the array exactly up to the height. */
  lemma {:induction false} AncestorInRange(nodes: Nodes, L: nat, k: nat)
    requires 2 * L < |nodes| && Complete(nodes)
    ensures Index(k, Shr(L, k)) < |nodes| <==> k <= Height(nodes)
    ensures k <= Height(nodes) ==> Shr(L, k) < Pow2(Height(nodes) - k)
  {
    var H := Height(nodes);
    InWidth(k, Shr(L, k), H);
    if k <= H {
      ShrAdd(L, k, H - k);
      InWidth(0, L, H);
      ShrZero(L, H);
      ShrZero(Shr(L, k), H - k);
    }
  }

  /** b is a with L's path replaced by the installed one and leaf at L. */
  ghost predicate MergeView(a: Nodes, b: Nodes, L: nat, pubs: seq<PublicKey>, leaf: LeafNode) {
    && SameOff(a, b, L)
    && At(b, 0, L) == LeafSlot(leaf)
    && (forall k: nat {:trigger At(b, k, Shr(L, k))} :: k > 0 ==>
          At(b, k, Shr(L, k)) == if k <= Height(a) then PathSlot(a, L, pubs, k) else Blank)
  }

  lemma MergedView(nodes: Nodes, L: nat, pubs: seq<PublicKey>, leaf: LeafNode)
    requires 2 * L < |nodes| && Complete(nodes)
    ensures MergeView(nodes, Merged(nodes, L, pubs, leaf), L, pubs, leaf)
  {
    var b := Merged(nodes, L, pubs, leaf);
    MergedOff(nodes, L, pubs, leaf);
    AtMerged(nodes, L, pubs, leaf, 0, L);
    assert Shr(L, 0) == L;
    forall k: nat | k > 0
      ensures At(b, k, Shr(L, k)) == if k <= Height(nodes) then PathSlot(nodes, L, pubs, k) else Blank
    {
      AtMerged(nodes, L, pubs, leaf, k, Shr(L, k));
    }
  }

  /** Installing a path changes nothing away from it. */
  lemma MergedOff(nodes: Nodes, L: nat, pubs: seq<PublicKey>, leaf: LeafNode)
    requires 2 * L < |nodes| && Complete(nodes)
    ensures SameOff(nodes, Merged(nodes, L, pubs, leaf), L)
  {
    forall k: nat, j: nat | Shr(L, k) != j
      ensures At(nodes, k, j) == At(Merged(nodes, L, pubs, leaf), k, j)
    {
      AtMerged(nodes, L, pubs, leaf, k, j);
    }
  }

  /** The copath child at level k - 1 is off the path of L. */
  lemma CopathOff(L: nat, k: nat)
    requires k > 0
    ensures Shr(L, k - 1) != Flip(Shr(L, k - 1))
    ensures Flip(Shr(L, k - 1)) / 2 == Shr(L, k)
  {
  }
}
