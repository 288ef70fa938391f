/** The public ratchet tree as an array of slots (mls/tree/node.go, treesync.go, mutate.go).

    `At` reads a slot by coordinates and is blank outside the array, so growing or trimming the
    array with blanks leaves it unchanged.  Leaf L lies below node (k, j) iff `Shr(L, k) == j`. */
module Ratchet {
  import opened TreeMath
  import opened Symbolic

  datatype Slot = Blank | LeafSlot(leaf: LeafNode) | ParentSlot(parent: ParentNode)
  type Nodes = seq<Slot>

  function Height(nodes: Nodes): nat {
    Log2(|nodes|)
  }

  /** The array has the width of a complete tree. */
  predicate Complete(nodes: Nodes) {
    |nodes| == Width(Height(nodes))
  }

  function LeafCount(nodes: Nodes): nat {
    (|nodes| + 1) / 2
  }

  function SlotAt(nodes: Nodes, i: nat): Slot {
    if i < |nodes| then nodes[i] else Blank
  }

  function At(nodes: Nodes, k: nat, j: nat): Slot {
    SlotAt(nodes, Index(k, j))
  }

  /** Leaves sit at level 0 and parents above. */
  ghost predicate Typed(nodes: Nodes) {
    forall k: nat, j: nat :: if k == 0 then !At(nodes, k, j).ParentSlot? else !At(nodes, k, j).LeafSlot?
  }

  // ---------------------------------------------------------------- resolution and tree hash

  function LeafIndices(leaves: seq<nat>): (r: seq<nat>)
    ensures |r| == |leaves| && forall i :: 0 <= i < |leaves| ==> r[i] == 2 * leaves[i]
  {
    seq(|leaves|, i requires 0 <= i < |leaves| => 2 * leaves[i])
  }

  function Resolution(nodes: Nodes, k: nat, j: nat): seq<nat> {
    match At(nodes, k, j)
    case LeafSlot(_) => [Index(k, j)]
    case ParentSlot(p) => [Index(k, j)] + LeafIndices(p.unmerged)
    case Blank =>
      if k == 0 then [] else Resolution(nodes, k - 1, 2 * j) + Resolution(nodes, k - 1, 2 * j + 1)
  }

  function Without(leaves: seq<nat>, excluded: set<nat>): seq<nat> {
    if leaves == [] then []
    else (if leaves[0] in excluded then [] else [leaves[0]]) + Without(leaves[1..], excluded)
  }

  lemma {:induction false} WithoutNone(leaves: seq<nat>)
    ensures Without(leaves, {}) == leaves
  {
    if leaves != [] { WithoutNone(leaves[1..]); }
  }

  function TreeHash(nodes: Nodes, k: nat, j: nat, excluded: set<nat>): Term {
    var slot := At(nodes, k, j);
    if k == 0 then
      LeafHash(j, if slot.LeafSlot? && j !in excluded then Some(slot.leaf) else None)
    else
      NodeHash(
        if slot.ParentSlot?
          then Some(slot.parent.(unmerged := Without(slot.parent.unmerged, excluded))) else None,
        TreeHash(nodes, k - 1, 2 * j, excluded),
        TreeHash(nodes, k - 1, 2 * j + 1, excluded))
  }

  function RootHash(nodes: Nodes): Term {
    TreeHash(nodes, Height(nodes), 0, {})
  }

  // ---------------------------------------------------------------- mutations

  /** Index i is a proper ancestor of leaf L. */
  predicate OnPath(i: nat, L: nat) {
    Level(i) > 0 && Shr(L, Level(i)) == Position(i)
  }

  /** fullWidth: the least complete-tree width of at least n */
  function FullWidth(n: nat): (w: nat)
    ensures w >= n
  {
    FullWidthFrom(0, n)
  }

  function FullWidthFrom(K: nat, n: nat): (w: nat)
    ensures w >= n
    decreases n - Width(K)
  {
    if Width(K) < n then FullWidthFrom(K + 1, n) else Width(K)
  }

  function Pad(nodes: Nodes, w: nat): (r: Nodes)
    requires |nodes| <= w
    ensures |r| == w
  {
    nodes + seq(w - |nodes|, _ => Blank)
  }

  /** Drop trailing blanks, keeping at least `least` slots. */
  function Trim(nodes: Nodes, least: nat): (r: Nodes)
    requires least <= |nodes|
    ensures least <= |r| <= |nodes| && r == nodes[..|r|]
    ensures |r| > least ==> !r[|r| - 1].Blank?
  {
    if |nodes| > least && nodes[|nodes| - 1].Blank? then Trim(nodes[..|nodes| - 1], least) else nodes
  }

  function BlankPath(nodes: Nodes, L: nat): (r: Nodes)
    ensures |r| == |nodes|
  {
    seq(|nodes|, i requires 0 <= i < |nodes| => if OnPath(i, L) then Blank else nodes[i])
  }

  function UpdatedLeaf(nodes: Nodes, L: nat, leaf: LeafNode): Nodes
    requires 2 * L < |nodes|
  {
    BlankPath(nodes, L)[2 * L := LeafSlot(leaf)]
  }

  function Refit(nodes: Nodes): Nodes
    requires |nodes| >= 1
  {
    var t := Trim(nodes, 1);
    Pad(t, FullWidth(|t|))
  }

  function RemovedLeaf(nodes: Nodes, L: nat): Nodes
    requires 2 * L < |nodes|
  {
    Refit(BlankPath(nodes, L)[2 * L := Blank])
  }

  /** Least leaf index from L on whose slot is blank (|nodes| bounds the search). */
  function FirstBlankFrom(nodes: Nodes, L: nat): (r: nat)
    ensures L <= r && (2 * L <= |nodes| + 1 ==> 2 * r <= |nodes| + 1)
    ensures At(nodes, 0, r).Blank?
    decreases |nodes| - 2 * L
  {
    if 2 * L < |nodes| && !nodes[2 * L].Blank? then FirstBlankFrom(nodes, L + 1) else L
  }

  function Grown(nodes: Nodes): Nodes {
    Pad(nodes, FullWidth(|nodes| + 2))
  }

  /** Position of the first entry not below x. */
  function InsertPoint(s: seq<nat>, x: nat): (i: nat)
    ensures i <= |s|
    ensures forall h :: 0 <= h < i ==> s[h] < x
    ensures i < |s| ==> s[i] >= x
  {
    if s == [] || s[0] >= x then 0 else 1 + InsertPoint(s[1..], x)
  }

  function Insert(s: seq<nat>, x: nat): seq<nat> {
    var i := InsertPoint(s, x);
    s[..i] + [x] + s[i..]
  }

  function WithUnmerged(slot: Slot, L: nat): Slot {
    if slot.ParentSlot? then ParentSlot(slot.parent.(unmerged := Insert(slot.parent.unmerged, L))) else slot
  }

  function MarkUnmerged(nodes: Nodes, L: nat): (r: Nodes)
    ensures |r| == |nodes|
  {
    seq(|nodes|, i requires 0 <= i < |nodes| => if OnPath(i, L) then WithUnmerged(nodes[i], L) else nodes[i])
  }

  /** Leaf index taken by the next added member. */
  function AddSlot(nodes: Nodes): nat {
    FirstBlankFrom(nodes, 0)
  }

  function Room(nodes: Nodes): (r: Nodes)
    requires Complete(nodes)
    ensures 2 * AddSlot(nodes) < |r|
  {
    if 2 * AddSlot(nodes) < |nodes| then nodes else Grown(nodes)
  }

  function AddedLeaf(nodes: Nodes, leaf: LeafNode): Nodes
    requires Complete(nodes)
  {
    var L := AddSlot(nodes);
    MarkUnmerged(Room(nodes), L)[2 * L := LeafSlot(leaf)]
  }

  // ---------------------------------------------------------------- pointwise meaning

  lemma PadSlot(nodes: Nodes, w: nat, i: nat)
    requires |nodes| <= w
    ensures SlotAt(Pad(nodes, w), i) == SlotAt(nodes, i)
  {
  }

  lemma {:induction false} TrimSlot(nodes: Nodes, least: nat, i: nat)
    requires least <= |nodes|
    ensures SlotAt(Trim(nodes, least), i) == SlotAt(nodes, i)
  {
    if |nodes| > least && nodes[|nodes| - 1].Blank? { TrimSlot(nodes[..|nodes| - 1], least, i); }
  }

  lemma RefitSlot(nodes: Nodes, i: nat)
    requires |nodes| >= 1
    ensures SlotAt(Refit(nodes), i) == SlotAt(nodes, i)
  {
    var t := Trim(nodes, 1);
    TrimSlot(nodes, 1, i);
    PadSlot(t, FullWidth(|t|), i);
  }

  lemma RoomSlot(nodes: Nodes, i: nat)
    requires Complete(nodes)
    ensures SlotAt(Room(nodes), i) == SlotAt(nodes, i)
  {
    if 2 * AddSlot(nodes) >= |nodes| { PadSlot(nodes, FullWidth(|nodes| + 2), i); }
  }

  /** Every leaf before the first blank one is taken. */
  lemma {:induction false} FirstBlankIsFirst(nodes: Nodes, L: nat, l: nat)
    requires L <= l < FirstBlankFrom(nodes, L)
    ensures !At(nodes, 0, l).Blank?
    decreases |nodes| - 2 * L
  {
    if L < l { FirstBlankIsFirst(nodes, L + 1, l); }
  }

  lemma {:induction false} AtBlankPath(nodes: Nodes, L: nat, k: nat, j: nat)
    ensures At(BlankPath(nodes, L), k, j) ==
            if k > 0 && Shr(L, k) == j then Blank else At(nodes, k, j)
  {
    IndexCoordinates(k, j);
  }

  lemma {:induction false} AtLeaf(nodes: Nodes, L: nat, s: Slot, k: nat, j: nat)
    requires 2 * L < |nodes|
    ensures At(nodes[2 * L := s], k, j) == if k == 0 && j == L then s else At(nodes, k, j)
  {
    IndexCoordinates(k, j);
    IndexCoordinates(0, L);
  }

  lemma {:induction false} AtUpdated(nodes: Nodes, L: nat, leaf: LeafNode, k: nat, j: nat)
    requires 2 * L < |nodes|
    ensures At(UpdatedLeaf(nodes, L, leaf), k, j) ==
            if Shr(L, k) != j then At(nodes, k, j) else if k == 0 then LeafSlot(leaf) else Blank
  {
    AtBlankPath(nodes, L, k, j);
    AtLeaf(BlankPath(nodes, L), L, LeafSlot(leaf), k, j);
  }

  lemma {:induction false} AtRemoved(nodes: Nodes, L: nat, k: nat, j: nat)
    requires 2 * L < |nodes|
    ensures At(RemovedLeaf(nodes, L), k, j) == if Shr(L, k) != j then At(nodes, k, j) else Blank
  {
    AtBlankPath(nodes, L, k, j);
    AtLeaf(BlankPath(nodes, L), L, Blank, k, j);
    RefitSlot(BlankPath(nodes, L)[2 * L := Blank], Index(k, j));
  }

  lemma {:induction false} AtAdded(nodes: Nodes, leaf: LeafNode, k: nat, j: nat)
    requires Complete(nodes)
    ensures
      var L := AddSlot(nodes);
      At(AddedLeaf(nodes, leaf), k, j) ==
      if Shr(L, k) != j then At(nodes, k, j)
      else if k == 0 then LeafSlot(leaf) else WithUnmerged(At(nodes, k, j), L)
  {
    var L := AddSlot(nodes);
    var r := Room(nodes);
    RoomSlot(nodes, Index(k, j));
    IndexCoordinates(k, j);
    AtLeaf(MarkUnmerged(r, L), L, LeafSlot(leaf), k, j);
  }

  // ---------------------------------------------------------------- frames

  /** The two trees agree on the whole subtree of (k, j). */
  ghost predicate SameBelow(a: Nodes, b: Nodes, k: nat, j: nat) {
    At(a, k, j) == At(b, k, j) &&
    (k > 0 ==> SameBelow(a, b, k - 1, 2 * j) && SameBelow(a, b, k - 1, 2 * j + 1))
  }

  /** The two trees agree away from the path of leaf L. */
  ghost predicate SameOff(a: Nodes, b: Nodes, L: nat) {
    forall k: nat, j: nat :: Shr(L, k) != j ==> At(a, k, j) == At(b, k, j)
  }

  lemma {:induction false} OffPathBelow(a: Nodes, b: Nodes, L: nat, k: nat, j: nat)
    requires SameOff(a, b, L) && Shr(L, k) != j
    ensures SameBelow(a, b, k, j)
  {
    if k > 0 {
      assert Shr(L, k) == Shr(L, k - 1) / 2;
      OffPathBelow(a, b, L, k - 1, 2 * j);
      OffPathBelow(a, b, L, k - 1, 2 * j + 1);
    }
  }

  lemma {:induction false} ResolutionFrame(a: Nodes, b: Nodes, k: nat, j: nat)
    requires SameBelow(a, b, k, j)
    ensures Resolution(a, k, j) == Resolution(b, k, j)
  {
    if k > 0 {
      ResolutionFrame(a, b, k - 1, 2 * j);
      ResolutionFrame(a, b, k - 1, 2 * j + 1);
    }
  }

  lemma {:induction false} TreeHashFrame(a: Nodes, b: Nodes, k: nat, j: nat, excluded: set<nat>)
    requires SameBelow(a, b, k, j)
    ensures TreeHash(a, k, j, excluded) == TreeHash(b, k, j, excluded)
  {
    if k > 0 {
      TreeHashFrame(a, b, k - 1, 2 * j, excluded);
      TreeHashFrame(a, b, k - 1, 2 * j + 1, excluded);
    }
  }
}
