/** What every tree reachable from a one-leaf tree satisfies, and why cloning is the identity
    (mls/tree/mutate.go, node.go, treekem.go). */
module TreeInvariant {
  import opened TreeMath
  import opened Symbolic
  import opened Ratchet
  import opened PathInstall

  ghost predicate HasLeaf(nodes: Nodes, k: nat, j: nat) {
    exists L: nat :: Shr(L, k) == j && At(nodes, 0, L).LeafSlot?
  }

  predicate Increasing(s: seq<nat>) {
    forall i, h :: 0 <= i < h < |s| ==> s[i] < s[h]
  }

  predicate Listed(slot: Slot, u: nat) {
    slot.ParentSlot? ==> u in slot.parent.unmerged
  }

  /** Unmerged leaves are sorted, present below the node, and listed at every node in between;
      both children have a member below them. */
  ghost predicate ParentOk(nodes: Nodes, k: nat, j: nat, p: ParentNode)
    requires k > 0
  {
    && Increasing(p.unmerged)
    && (forall u :: u in p.unmerged ==> Shr(u, k) == j && At(nodes, 0, u).LeafSlot?)
    && (forall u, h: nat :: u in p.unmerged && 0 < h < k ==> Listed(At(nodes, h, Shr(u, h)), u))
    && HasLeaf(nodes, k - 1, 2 * j)
    && HasLeaf(nodes, k - 1, 2 * j + 1)
  }

  ghost predicate ParentsOk(nodes: Nodes) {
    && Typed(nodes)
    && (forall k: nat, j: nat :: k > 0 && At(nodes, k, j).ParentSlot? ==> ParentOk(nodes, k, j, At(nodes, k, j).parent))
  }

  /** The array has the least complete width that holds every member. */
  ghost predicate Tight(nodes: Nodes) {
    Complete(nodes) && (Height(nodes) > 0 ==> HasLeaf(nodes, Height(nodes) - 1, 1))
  }

  ghost predicate WellFormed(nodes: Nodes) {
    ParentsOk(nodes) && Tight(nodes)
  }

  // ---------------------------------------------------------------- geometry

  lemma {:induction false} ShrMeet(a: nat, b: nat, h: nat, k: nat)
    requires h <= k && Shr(a, h) == Shr(b, h)
    ensures Shr(a, k) == Shr(b, k)
    decreases k - h
  {
    if h < k {
      assert Shr(a, h + 1) == Shr(b, h + 1);
      ShrMeet(a, b, h + 1, k);
    }
  }

  /** A member below the right child of a node has a larger array index than the node. */
  lemma {:induction false} RightLeafAfter(k: nat, j: nat, u: nat)
    requires Shr(u, k) == 2 * j + 1
    ensures Index(0, u) > Index(k + 1, j)
  {
    ShrBounds(u, k);
    IndexClosedForm(k + 1, j);
    var p := Pow2(k);
    assert (2 * j + 1) * p == 2 * (j * p) + p;
    assert j * (2 * (2 * p)) == 4 * (j * p);
  }

  /** In a well-formed tree a node resolves to something iff a member sits below it. */
  lemma {:induction false} ResolutionNonEmpty(nodes: Nodes, k: nat, j: nat)
    requires ParentsOk(nodes)
    ensures Resolution(nodes, k, j) != [] <==> HasLeaf(nodes, k, j)
  {
    if At(nodes, k, j).Blank? {
      if k > 0 {
        ResolutionNonEmpty(nodes, k - 1, 2 * j);
        ResolutionNonEmpty(nodes, k - 1, 2 * j + 1);
        HasLeafSplit(nodes, k, j);
      } else {
        assert forall L: nat :: Shr(L, 0) == j ==> L == j;
      }
    } else if k == 0 {
      assert Shr(j, 0) == j && At(nodes, 0, j).LeafSlot?;
    } else {
      assert ParentOk(nodes, k, j, At(nodes, k, j).parent);
      HasLeafSplit(nodes, k, j);
    }
  }

  lemma HasLeafSplit(nodes: Nodes, k: nat, j: nat)
    requires k > 0
    ensures HasLeaf(nodes, k, j) <==> HasLeaf(nodes, k - 1, 2 * j) || HasLeaf(nodes, k - 1, 2 * j + 1)
  {
    if HasLeaf(nodes, k, j) {
      var L: nat :| Shr(L, k) == j && At(nodes, 0, L).LeafSlot?;
      assert Shr(L, k - 1) == 2 * j || Shr(L, k - 1) == 2 * j + 1;
    }
    if HasLeaf(nodes, k - 1, 2 * j) {
      var L: nat :| Shr(L, k - 1) == 2 * j && At(nodes, 0, L).LeafSlot?;
      assert Shr(L, k) == j;
    }
    if HasLeaf(nodes, k - 1, 2 * j + 1) {
      var L: nat :| Shr(L, k - 1) == 2 * j + 1 && At(nodes, 0, L).LeafSlot?;
      assert Shr(L, k) == j;
    }
  }

  // ---------------------------------------------------------------- preservation, node by node

  lemma HasLeafFrame(a: Nodes, b: Nodes, L: nat, k: nat, j: nat)
    requires SameOff(a, b, L) && HasLeaf(a, k, j)
    requires Shr(L, k) != j || (At(a, 0, L).LeafSlot? ==> At(b, 0, L).LeafSlot?)
    ensures HasLeaf(b, k, j)
  {
    var u: nat :| Shr(u, k) == j && At(a, 0, u).LeafSlot?;
    if u != L { assert Shr(L, 0) != u; }
    assert At(b, 0, u).LeafSlot?;
  }

  lemma {:induction false} OffPathOk(a: Nodes, b: Nodes, L: nat, k: nat, j: nat)
    requires SameOff(a, b, L) && k > 0 && Shr(L, k) != j
    requires At(a, k, j).ParentSlot? && ParentOk(a, k, j, At(a, k, j).parent)
    ensures At(b, k, j).ParentSlot? && ParentOk(b, k, j, At(b, k, j).parent)
  {
    var p := At(a, k, j).parent;
    assert At(b, k, j) == At(a, k, j);
    forall u, h: nat | u in p.unmerged && h < k
      ensures Shr(L, h) != Shr(u, h) && At(b, h, Shr(u, h)) == At(a, h, Shr(u, h))
    {
      if Shr(L, h) == Shr(u, h) { ShrMeet(L, u, h, k); }
    }
    forall u | u in p.unmerged ensures At(b, 0, u).LeafSlot? {
      assert Shr(u, 0) == u;
    }
    assert Shr(L, k) == Shr(L, k - 1) / 2;
    HasLeafFrame(a, b, L, k - 1, 2 * j);
    HasLeafFrame(a, b, L, k - 1, 2 * j + 1);
  }

  /** A step that keeps everything off L's path and leaves L's path blank keeps ParentsOk. */
  lemma BlankedOk(a: Nodes, b: Nodes, L: nat)
    requires ParentsOk(a) && SameOff(a, b, L)
    requires forall k: nat :: k > 0 ==> At(b, k, Shr(L, k)).Blank?
    requires !At(b, 0, L).ParentSlot?
    ensures ParentsOk(b)
  {
    forall k: nat, j: nat
      ensures if k == 0 then !At(b, k, j).ParentSlot? else !At(b, k, j).LeafSlot?
      ensures k > 0 && At(b, k, j).ParentSlot? ==> ParentOk(b, k, j, At(b, k, j).parent)
    {
      if Shr(L, k) == j {
        if k == 0 { assert j == L; }
      } else {
        assert At(b, k, j) == At(a, k, j);
        if k > 0 && At(b, k, j).ParentSlot? { OffPathOk(a, b, L, k, j); }
      }
    }
  }

  lemma UpdatedOk(nodes: Nodes, L: nat, leaf: LeafNode)
    requires WellFormed(nodes) && 2 * L < |nodes|
    ensures WellFormed(UpdatedLeaf(nodes, L, leaf))
  {
    var b := UpdatedLeaf(nodes, L, leaf);
    forall k: nat, j: nat
      ensures Shr(L, k) != j ==> At(nodes, k, j) == At(b, k, j)
      ensures Shr(L, k) == j ==> At(b, k, j) == if k == 0 then LeafSlot(leaf) else Blank
    {
      AtUpdated(nodes, L, leaf, k, j);
    }
    assert Shr(L, 0) == L;
    BlankedOk(nodes, b, L);
    if Height(nodes) > 0 { HasLeafFrame(nodes, b, L, Height(nodes) - 1, 1); }
  }

  lemma RemovedOk(nodes: Nodes, L: nat)
    requires WellFormed(nodes) && 2 * L < |nodes|
    ensures WellFormed(RemovedLeaf(nodes, L))
  {
    var b := RemovedLeaf(nodes, L);
    forall k: nat, j: nat
      ensures Shr(L, k) != j ==> At(nodes, k, j) == At(b, k, j)
      ensures Shr(L, k) == j ==> At(b, k, j) == Blank
    {
      AtRemoved(nodes, L, k, j);
    }
    assert Shr(L, 0) == L;
    BlankedOk(nodes, b, L);
    RefitTight(BlankPath(nodes, L)[2 * L := Blank]);
  }

  lemma {:induction false} FullWidthLeast(K: nat, n: nat)
    requires K > 0 ==> Width(K - 1) < n
    ensures
      var w := FullWidthFrom(K, n);
      Log2(w) >= K && w == Width(Log2(w)) && (Log2(w) > 0 ==> Width(Log2(w) - 1) < n)
    decreases n - Width(K)
  {
    Log2Width(K);
    if Width(K) < n { FullWidthLeast(K + 1, n); }
  }

  /** The last non-blank slot of a tree whose parents are well-formed is a leaf. */
  lemma {:induction false} LastIsLeaf(nodes: Nodes, i: nat)
    requires ParentsOk(nodes) && i < |nodes| && !nodes[i].Blank?
    requires forall h :: i < h < |nodes| ==> nodes[h].Blank?
    ensures Level(i) == 0 && nodes[i].LeafSlot? && Index(0, Position(i)) == i
  {
    var k, j := Level(i), Position(i);
    CoordinatesIndex(i);
    assert At(nodes, k, j) == nodes[i];
    if k > 0 {
      assert ParentOk(nodes, k, j, nodes[i].parent);
      var u: nat :| Shr(u, k - 1) == 2 * j + 1 && At(nodes, 0, u).LeafSlot?;
      RightLeafAfter(k - 1, j, u);
    }
  }

  lemma {:induction false} RightHalf(u: nat, K: nat)
    requires K > 0 && Width(K - 1) <= Index(0, u) < Width(K)
    ensures Shr(u, K - 1) == 1
  {
    ShrUnique(u, K - 1, 1);
  }

  lemma {:induction false} RefitTight(nodes: Nodes)
    requires |nodes| >= 1 && ParentsOk(Refit(nodes))
    ensures Tight(Refit(nodes))
  {
    var b := Refit(nodes);
    var K := Height(b);
    FullWidthLeast(0, |Trim(nodes, 1)|);
    if K > 0 {
      var i := RefitLast(nodes);
      LastIsLeaf(b, i);
      RightHalf(Position(i), K);
      assert Shr(Position(i), K - 1) == 1 && At(b, 0, Position(i)).LeafSlot?;
    }
  }

  /** The last slot that trimming kept is the last populated one of the padded array. */
  lemma {:induction false} RefitLast(nodes: Nodes) returns (i: nat)
    requires |nodes| >= 1 && Height(Refit(nodes)) > 0
    ensures var b := Refit(nodes);
            && i == |Trim(nodes, 1)| - 1 < |b| && Width(Height(b) - 1) <= i && !b[i].Blank?
            && forall h | i < h < |b| :: b[h].Blank?
  {
    var t := Trim(nodes, 1);
    var b := Refit(nodes);
    FullWidthLeast(0, |t|);
    assert |t| > 1 by { Pow2Monotone(0, Height(b) - 1); }
    i := |t| - 1;
    PadSlot(t, |b|, i);
    forall h | i < h < |b| ensures b[h].Blank? { PadSlot(t, |b|, h); }
  }

  lemma InsertMembers(s: seq<nat>, x: nat)
    ensures forall y :: y in Insert(s, x) <==> y in s || y == x
  {
    var i := InsertPoint(s, x);
    assert s == s[..i] + s[i..];
    assert forall y :: y in s <==> y in s[..i] || y in s[i..];
  }

  lemma {:induction false} InsertSorted(s: seq<nat>, x: nat)
    requires Increasing(s) && x !in s
    ensures Increasing(Insert(s, x))
    ensures forall y :: y in Insert(s, x) <==> y in s || y == x
  {
    InsertMembers(s, x);
    var i, r := InsertPoint(s, x), Insert(s, x);
    assert i < |s| ==> s[i] > x;
    forall a, b | 0 <= a < b < |r| ensures r[a] < r[b] {
      assert r[a] == if a < i then s[a] else if a == i then x else s[a - 1];
      assert r[b] == if b < i then s[b] else if b == i then x else s[b - 1];
    }
  }

  lemma AddedListed(a: Nodes, b: Nodes, L: nat, leaf: LeafNode, h: nat, u: nat)
    requires AddView(a, b, L, leaf) && h > 0 && (u == L || Listed(At(a, h, Shr(u, h)), u))
    ensures Listed(At(b, h, Shr(u, h)), u)
  {
    var s := At(a, h, Shr(u, h));
    if Shr(L, h) == Shr(u, h) && s.ParentSlot? {
      assert At(b, h, Shr(L, h)) == WithUnmerged(s, L);
      InsertMembers(s.parent.unmerged, L);
    }
  }

  lemma {:induction false} AddedPathOk(a: Nodes, b: Nodes, L: nat, leaf: LeafNode, k: nat, p: ParentNode)
    requires AddView(a, b, L, leaf) && k > 0
    requires ParentOk(a, k, Shr(L, k), p)
    ensures ParentOk(b, k, Shr(L, k), p.(unmerged := Insert(p.unmerged, L)))
  {
    var j, q := Shr(L, k), Insert(p.unmerged, L);
    assert L !in p.unmerged;
    InsertSorted(p.unmerged, L);
    forall u, h: nat | u in q && 0 < h < k ensures Listed(At(b, h, Shr(u, h)), u) {
      AddedListed(a, b, L, leaf, h, u);
    }
    forall u | u in q ensures Shr(u, k) == j && At(b, 0, u).LeafSlot? {
      if u != L { assert Shr(L, 0) != u; }
    }
    HasLeafFrame(a, b, L, k - 1, 2 * j);
    HasLeafFrame(a, b, L, k - 1, 2 * j + 1);
  }

  /** b is a with leaf placed at L and L listed at its ancestors. */
  ghost predicate AddView(a: Nodes, b: Nodes, L: nat, leaf: LeafNode) {
    && SameOff(a, b, L)
    && At(a, 0, L).Blank? && At(b, 0, L) == LeafSlot(leaf)
    && (forall k: nat {:trigger At(b, k, Shr(L, k))} :: k > 0 ==>
         At(b, k, Shr(L, k)) == WithUnmerged(At(a, k, Shr(L, k)), L))
  }

  lemma AddedViews(nodes: Nodes, leaf: LeafNode)
    requires Complete(nodes)
    ensures AddView(nodes, AddedLeaf(nodes, leaf), AddSlot(nodes), leaf)
  {
    var L, b := AddSlot(nodes), AddedLeaf(nodes, leaf);
    forall k: nat, j: nat
      ensures At(b, k, j) ==
        if Shr(L, k) != j then At(nodes, k, j)
        else if k == 0 then LeafSlot(leaf) else WithUnmerged(At(nodes, k, j), L)
    {
      AtAdded(nodes, leaf, k, j);
    }
    assert Shr(L, 0) == L;
  }

  lemma AddedHasLeaf(nodes: Nodes, leaf: LeafNode, k: nat, j: nat)
    requires Complete(nodes) && HasLeaf(nodes, k, j)
    ensures HasLeaf(AddedLeaf(nodes, leaf), k, j)
  {
    AddedViews(nodes, leaf);
    HasLeafFrame(nodes, AddedLeaf(nodes, leaf), AddSlot(nodes), k, j);
  }

  lemma {:induction false} FullWidthIs(n: nat, K: nat)
    requires n <= Width(K) && (K > 0 ==> Width(K - 1) < n)
    ensures FullWidth(n) == Width(K)
  {
    FullWidthLeast(0, n);
    var h := Log2(FullWidth(n));
    if h < K { Pow2Monotone(h, K - 1); }
    if h > K { Pow2Monotone(K, h - 1); }
  }

  lemma AddedTight(nodes: Nodes, leaf: LeafNode)
    requires Tight(nodes)
    ensures Tight(AddedLeaf(nodes, leaf))
  {
    var L, b, H := AddSlot(nodes), AddedLeaf(nodes, leaf), Height(nodes);
    if 2 * L < |nodes| {
      if H > 0 { AddedHasLeaf(nodes, leaf, H - 1, 1); }
    } else {
      GrownWidth(nodes);
      assert |b| == Width(H + 1);
      Log2Width(H + 1);
      AddedViews(nodes, leaf);
      assert Shr(L, H) == 1 && At(b, 0, L).LeafSlot?;
    }
  }

  /** A full tree doubles, and the new member starts its right half. */
  lemma GrownWidth(nodes: Nodes)
    requires Complete(nodes) && 2 * AddSlot(nodes) >= |nodes|
    ensures |Grown(nodes)| == Width(Height(nodes) + 1)
    ensures Shr(AddSlot(nodes), Height(nodes)) == 1
  {
    var H := Height(nodes);
    assert Width(H + 1) == 2 * Width(H) + 1 && Width(H) >= 1;
    FullWidthIs(|nodes| + 2, H + 1);
    RightHalf(AddSlot(nodes), H + 1);
  }

  lemma AddedOk(nodes: Nodes, leaf: LeafNode)
    requires WellFormed(nodes)
    ensures WellFormed(AddedLeaf(nodes, leaf))
  {
    var L, b := AddSlot(nodes), AddedLeaf(nodes, leaf);
    AddedViews(nodes, leaf);
    AddedTight(nodes, leaf);
    forall k: nat, j: nat
      ensures if k == 0 then !At(b, k, j).ParentSlot? else !At(b, k, j).LeafSlot?
      ensures k > 0 && At(b, k, j).ParentSlot? ==> ParentOk(b, k, j, At(b, k, j).parent)
    {
      if Shr(L, k) != j {
        assert At(b, k, j) == At(nodes, k, j);
        if k > 0 && At(b, k, j).ParentSlot? { OffPathOk(nodes, b, L, k, j); }
      } else if k > 0 && At(nodes, k, j).ParentSlot? {
        AddedPathOk(nodes, b, L, leaf, k, At(nodes, k, j).parent);
      }
    }
  }

  lemma MergedOk(nodes: Nodes, L: nat, pubs: seq<PublicKey>, leaf: LeafNode)
    requires WellFormed(nodes) && 2 * L < |nodes|
    ensures WellFormed(Merged(nodes, L, pubs, leaf))
  {
    var b := Merged(nodes, L, pubs, leaf);
    MergedOff(nodes, L, pubs, leaf);
    AtMerged(nodes, L, pubs, leaf, 0, L);
    assert Shr(L, 0) == L;
    forall k: nat, j: nat
      ensures if k == 0 then !At(b, k, j).ParentSlot? else !At(b, k, j).LeafSlot?
      ensures k > 0 && At(b, k, j).ParentSlot? ==> ParentOk(b, k, j, At(b, k, j).parent)
    {
      AtMerged(nodes, L, pubs, leaf, k, j);
      if Shr(L, k) != j {
        if k > 0 && At(b, k, j).ParentSlot? { OffPathOk(nodes, b, L, k, j); }
      } else if k > 0 && At(b, k, j).ParentSlot? {
        CopathHasLeaf(nodes, L, k);
        MergedPathOk(nodes, L, pubs, leaf, k);
      }
    }
    if Height(nodes) > 0 { HasLeafFrame(nodes, b, L, Height(nodes) - 1, 1); }
  }

  lemma MergedPathOk(nodes: Nodes, L: nat, pubs: seq<PublicKey>, leaf: LeafNode, k: nat)
    requires Complete(nodes) && 2 * L < |nodes| && k > 0
    requires At(Merged(nodes, L, pubs, leaf), k, Shr(L, k)).ParentSlot?
    requires HasLeaf(nodes, k - 1, Flip(Shr(L, k - 1)))
    ensures
      var b, j := Merged(nodes, L, pubs, leaf), Shr(L, k);
      ParentOk(b, k, j, At(b, k, j).parent)
  {
    var b, c := Merged(nodes, L, pubs, leaf), Flip(Shr(L, k - 1));
    AtMerged(nodes, L, pubs, leaf, k, Shr(L, k));
    MergedOff(nodes, L, pubs, leaf);
    HasLeafFrame(nodes, b, L, k - 1, c);
    assert HasLeaf(b, k - 1, Shr(L, k - 1)) by {
      AtMerged(nodes, L, pubs, leaf, 0, L);
      assert Shr(L, 0) == L;
    }
    EmptyUnmergedOk(b, k, Shr(L, k - 1), c, At(b, k, Shr(L, k)).parent);
  }

  /** A level is filtered iff some member sits below the copath child. */
  lemma CopathHasLeaf(nodes: Nodes, L: nat, k: nat)
    requires ParentsOk(nodes) && k > 0
    ensures Filtered(nodes, L, k) <==> HasLeaf(nodes, k - 1, Flip(Shr(L, k - 1)))
  {
    ResolutionNonEmpty(nodes, k - 1, Flip(Shr(L, k - 1)));
  }

  lemma EmptyUnmergedOk(nodes: Nodes, k: nat, c: nat, d: nat, p: ParentNode)
    requires k > 0 && d == Flip(c) && p.unmerged == []
    requires HasLeaf(nodes, k - 1, c) && HasLeaf(nodes, k - 1, d)
    ensures ParentOk(nodes, k, c / 2, p)
  {
  }

  // ---------------------------------------------------------------- reachable trees

  datatype TreeOp =
    | UpdateOp(leaf: nat, node: LeafNode)
    | RemoveOp(leaf: nat)
    | AddOp(node: LeafNode)
    | PathOp(leaf: nat, pubs: seq<PublicKey>, node: LeafNode)

  /** One mutation; None is the source's error. */
  function Apply(nodes: Nodes, op: TreeOp): Option<Nodes>
    requires Complete(nodes)
  {
    match op
    case UpdateOp(L, leaf) => if 2 * L < |nodes| then Some(UpdatedLeaf(nodes, L, leaf)) else None
    case RemoveOp(L) => if 2 * L < |nodes| then Some(RemovedLeaf(nodes, L)) else None
    case AddOp(leaf) => Some(AddedLeaf(nodes, leaf))
    case PathOp(L, pubs, leaf) =>
      if 2 * L < |nodes| && |pubs| == Rank(nodes, L, Height(nodes)) then Some(Merged(nodes, L, pubs, leaf)) else None
  }

  /** `run` is a sequence of trees, each obtained from the previous one by the matching mutation. */
  ghost predicate TreeRun(run: seq<Nodes>, ops: seq<TreeOp>) {
    && |run| == |ops| + 1
    && (exists leaf :: run[0] == [LeafSlot(leaf)])
    && (forall i :: 0 <= i < |run| ==> Complete(run[i]))
    && (forall i :: 0 <= i < |ops| ==> Apply(run[i], ops[i]) == Some(run[i + 1]))
  }

  lemma SingleLeafOk(leaf: LeafNode)
    ensures WellFormed([LeafSlot(leaf)])
  {
    var t := [LeafSlot(leaf)];
    forall k: nat, j: nat ensures At(t, k, j) == if k == 0 && j == 0 then LeafSlot(leaf) else Blank {
      IndexCoordinates(k, j);
      IndexCoordinates(0, 0);
    }
  }

  lemma ApplyOk(nodes: Nodes, op: TreeOp)
    requires WellFormed(nodes) && Apply(nodes, op).Some?
    ensures WellFormed(Apply(nodes, op).value)
  {
    match op
    case UpdateOp(L, leaf) => UpdatedOk(nodes, L, leaf);
    case RemoveOp(L) => RemovedOk(nodes, L);
    case AddOp(leaf) => AddedOk(nodes, leaf);
    case PathOp(L, pubs, leaf) => MergedOk(nodes, L, pubs, leaf);
  }

  /** Every tree of every run is well-formed. */
  lemma {:induction false} ReachableOk(run: seq<Nodes>, ops: seq<TreeOp>, i: nat)
    requires TreeRun(run, ops) && i < |run|
    ensures WellFormed(run[i])
  {
    if i == 0 {
      var leaf :| run[0] == [LeafSlot(leaf)];
      SingleLeafOk(leaf);
    } else {
      ReachableOk(run, ops, i - 1);
      assert Apply(run[i - 1], ops[i - 1]) == Some(run[i - 1 + 1]);
      ApplyOk(run[i - 1], ops[i - 1]);
    }
  }

  // ---------------------------------------------------------------- clone

  /** No smaller complete array holds every member. */
  lemma {:induction false} TightIsLeast(nodes: Nodes, K: nat)
    requires Tight(nodes) && forall L: nat :: At(nodes, 0, L).LeafSlot? ==> Index(0, L) < Width(K)
    ensures |nodes| <= Width(K)
  {
    var H := Height(nodes);
    Pow2Monotone(0, K);
    if H > 0 {
      var u: nat :| Shr(u, H - 1) == 1 && At(nodes, 0, u).LeafSlot?;
      ShrBounds(u, H - 1);
      InWidth(0, u, K);
      if K < H { Pow2Monotone(K, H - 1); } else { Pow2Monotone(H, K); }
    }
  }

  /** Marshal drops trailing blanks, parse rejects nothing-left and pads to full width. */
  function Cloned(nodes: Nodes): Option<Nodes> {
    var t := Trim(nodes, 0);
    if t == [] then None else Some(Pad(t, FullWidth(|t|)))
  }

  ghost predicate HasMember(nodes: Nodes) {
    exists L: nat :: At(nodes, 0, L).LeafSlot?
  }

  lemma TrimmedWidth(nodes: Nodes, L: nat)
    requires Tight(nodes) && At(nodes, 0, L).LeafSlot?
    ensures Trim(nodes, 0) != [] && FullWidth(|Trim(nodes, 0)|) == |nodes|
  {
    var t, H := Trim(nodes, 0), Height(nodes);
    TrimSlot(nodes, 0, Index(0, L));
    if H > 0 {
      var u: nat :| Shr(u, H - 1) == 1 && At(nodes, 0, u).LeafSlot?;
      TrimSlot(nodes, 0, Index(0, u));
      ShrBounds(u, H - 1);
    }
    FullWidthIs(|t|, H);
  }

  lemma NonBlankHasMember(nodes: Nodes)
    requires ParentsOk(nodes) && Trim(nodes, 0) != []
    ensures HasMember(nodes)
  {
    var t := Trim(nodes, 0);
    var i := |t| - 1;
    TrimSlot(nodes, 0, i);
    forall h | i < h < |nodes| ensures nodes[h].Blank? { TrimSlot(nodes, 0, h); }
    LastIsLeaf(nodes, i);
    assert At(nodes, 0, Position(i)).LeafSlot?;
  }

  /** Cloning a reachable tree returns it node for node, unless no member is left, when it fails. */
  lemma CloneIsIdentity(nodes: Nodes)
    requires WellFormed(nodes)
    ensures Cloned(nodes) == if HasMember(nodes) then Some(nodes) else None
  {
    var t := Trim(nodes, 0);
    if HasMember(nodes) {
      var L: nat :| At(nodes, 0, L).LeafSlot?;
      TrimmedWidth(nodes, L);
      var c := Pad(t, FullWidth(|t|));
      forall i | 0 <= i < |nodes| ensures c[i] == nodes[i] {
        TrimSlot(nodes, 0, i);
        PadSlot(t, |c|, i);
      }
      assert c == nodes;
    } else if t != [] {
      NonBlankHasMember(nodes);
    }
  }
}
