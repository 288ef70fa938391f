/** Parent-hash validity and what keeps it (mls/tree/validation.go; section 7.9 of RFC 9420). */
module ParentHashes {
  import opened TreeMath
  import opened Symbolic
  import opened Ratchet
  import opened PathInstall
  import opened TreeInvariant

  function Leaves(s: seq<nat>): set<nat> {
    set u | u in s
  }

  /** parentHashOf: the hash a child of parent node p carries when (k, s) is its sibling. */
  function ParentHashOf(nodes: Nodes, p: ParentNode, k: nat, s: nat): Term {
    ParentHash(p.key, p.parentHash, TreeHash(nodes, k, s, Leaves(p.unmerged)))
  }

  /** nodeParentHash: the parent hash stored in a slot, if it carries one. */
  function StoredHash(slot: Slot): Option<Term> {
    match slot
    case Blank => None
    case LeafSlot(leaf) => if leaf.body.source.CommitSource? then Some(leaf.body.source.parentHash) else None
    case ParentSlot(p) => Some(p.parentHash)
  }

  function Entries(s: seq<nat>): set<nat> {
    set d | d in s
  }

  /** Array indices of the unmerged leaves of p below (k, c). */
  function UnmergedBelow(p: ParentNode, k: nat, c: nat): set<nat> {
    set u | u in p.unmerged && Shr(u, k) == c :: Index(0, u)
  }

  predicate MatchAt(nodes: Nodes, p: ParentNode, k: nat, c: nat, s: nat, d: nat) {
    && StoredHash(SlotAt(nodes, d)) == Some(ParentHashOf(nodes, p, k, s))
    && Entries(Resolution(nodes, k, c)) - {d} == UnmergedBelow(p, k, c)
  }

  /** hasParentHashMatch for parent p with child (k, c) and sibling (k, s) */
  predicate Matches(nodes: Nodes, p: ParentNode, k: nat, c: nat, s: nat) {
    exists d | d in Resolution(nodes, k, c) :: MatchAt(nodes, p, k, c, s, d)
  }

  /** Exactly one orientation of the children of (k + 1, j) matches. */
  predicate HashOk(nodes: Nodes, p: ParentNode, k: nat, j: nat) {
    Matches(nodes, p, k, 2 * j, 2 * j + 1) != Matches(nodes, p, k, 2 * j + 1, 2 * j)
  }

  /** VerifyParentHashes */
  ghost predicate HashesOk(nodes: Nodes) {
    forall k: nat, j: nat :: k > 0 && At(nodes, k, j).ParentSlot? ==> HashOk(nodes, At(nodes, k, j).parent, k - 1, j)
  }

  // ---------------------------------------------------------------- frames

  /** Unmerged leaves are members below the node that lists them. */
  ghost predicate Placed(nodes: Nodes) {
    forall k: nat, j: nat, u {:trigger u in At(nodes, k, j).parent.unmerged} ::
      At(nodes, k, j).ParentSlot? && u in At(nodes, k, j).parent.unmerged ==>
      Shr(u, k) == j && At(nodes, 0, u).LeafSlot?
  }

  lemma ParentsPlaced(nodes: Nodes)
    requires ParentsOk(nodes)
    ensures Placed(nodes)
  {
    forall k: nat, j: nat, u | At(nodes, k, j).ParentSlot? && u in At(nodes, k, j).parent.unmerged
      ensures Shr(u, k) == j && At(nodes, 0, u).LeafSlot?
    {
      assert ParentOk(nodes, k, j, At(nodes, k, j).parent);
    }
  }

  lemma EntrySlotFrame(a: Nodes, b: Nodes, k: nat, j: nat, d: nat)
    requires SameBelow(a, b, k, j) && Placed(a) && d in Resolution(a, k, j)
    ensures SlotAt(a, d) == SlotAt(b, d)
    decreases k
  {
    match At(a, k, j)
    case LeafSlot(_) =>
    case Blank =>
      if k > 0 {
        if d in Resolution(a, k - 1, 2 * j) { EntrySlotFrame(a, b, k - 1, 2 * j, d); }
        else { EntrySlotFrame(a, b, k - 1, 2 * j + 1, d); }
      }
    case ParentSlot(p) =>
      if d != Index(k, j) {
        var i :| 0 <= i < |p.unmerged| && d == LeafIndices(p.unmerged)[i];
        var u := p.unmerged[i];
        assert u in At(a, k, j).parent.unmerged;
        SameBelowLeaf(a, b, k, j, u);
      }
  }

  lemma {:induction false} SameBelowLeaf(a: Nodes, b: Nodes, k: nat, j: nat, u: nat)
    requires SameBelow(a, b, k, j) && Shr(u, k) == j
    ensures At(a, 0, u) == At(b, 0, u)
    decreases k
  {
    if k > 0 {
      if Shr(u, k - 1) == 2 * j { SameBelowLeaf(a, b, k - 1, 2 * j, u); }
      else { SameBelowLeaf(a, b, k - 1, 2 * j + 1, u); }
    }
  }

  lemma MatchesFrame(a: Nodes, b: Nodes, p: ParentNode, k: nat, c: nat, s: nat)
    requires Placed(a) && SameBelow(a, b, k, c) && SameBelow(a, b, k, s)
    ensures Matches(a, p, k, c, s) == Matches(b, p, k, c, s)
  {
    ResolutionFrame(a, b, k, c);
    TreeHashFrame(a, b, k, s, Leaves(p.unmerged));
    forall d | d in Resolution(a, k, c) ensures MatchAt(a, p, k, c, s, d) == MatchAt(b, p, k, c, s, d) {
      EntrySlotFrame(a, b, k, c, d);
    }
  }

  lemma OffPathHashOk(a: Nodes, b: Nodes, L: nat, k: nat, j: nat)
    requires Placed(a) && SameOff(a, b, L)
    requires k > 0 && Shr(L, k) != j
    requires At(a, k, j).ParentSlot? ==> HashOk(a, At(a, k, j).parent, k - 1, j)
    requires At(b, k, j).ParentSlot?
    ensures HashOk(b, At(b, k, j).parent, k - 1, j)
  {
    assert At(a, k, j) == At(b, k, j);
    OffPathChildren(a, b, L, k, j);
    HashOkFrame(a, b, At(a, k, j).parent, k - 1, j);
  }

  lemma OffPathChildren(a: Nodes, b: Nodes, L: nat, k: nat, j: nat)
    requires SameOff(a, b, L) && k > 0 && Shr(L, k) != j
    ensures SameBelow(a, b, k - 1, 2 * j) && SameBelow(a, b, k - 1, 2 * j + 1)
  {
    OffPathBelow(a, b, L, k, j);
  }

  lemma HashOkFrame(a: Nodes, b: Nodes, p: ParentNode, k: nat, j: nat)
    requires Placed(a) && SameBelow(a, b, k, 2 * j) && SameBelow(a, b, k, 2 * j + 1)
    ensures HashOk(a, p, k, j) == HashOk(b, p, k, j)
  {
    MatchesFrame(a, b, p, k, 2 * j, 2 * j + 1);
    MatchesFrame(a, b, p, k, 2 * j + 1, 2 * j);
  }

  /** Blanking a path keeps every remaining parent valid. */
  lemma BlankedHashesOk(a: Nodes, b: Nodes, L: nat)
    requires Placed(a) && HashesOk(a) && SameOff(a, b, L)
    requires forall k: nat :: k > 0 ==> At(b, k, Shr(L, k)).Blank?
    ensures HashesOk(b)
  {
    forall k: nat, j: nat | k > 0 && At(b, k, j).ParentSlot? ensures HashOk(b, At(b, k, j).parent, k - 1, j) {
      OffPathHashOk(a, b, L, k, j);
    }
  }

  lemma UpdatedHashesOk(nodes: Nodes, L: nat, leaf: LeafNode)
    requires Placed(nodes) && HashesOk(nodes) && 2 * L < |nodes|
    ensures HashesOk(UpdatedLeaf(nodes, L, leaf))
  {
    var b := UpdatedLeaf(nodes, L, leaf);
    forall k: nat, j: nat
      ensures Shr(L, k) != j ==> At(nodes, k, j) == At(b, k, j)
      ensures k > 0 && Shr(L, k) == j ==> At(b, k, j).Blank?
    {
      AtUpdated(nodes, L, leaf, k, j);
    }
    BlankedHashesOk(nodes, b, L);
  }

  lemma RemovedHashesOk(nodes: Nodes, L: nat)
    requires Placed(nodes) && HashesOk(nodes) && 2 * L < |nodes|
    ensures HashesOk(RemovedLeaf(nodes, L))
  {
    var b := RemovedLeaf(nodes, L);
    forall k: nat, j: nat
      ensures Shr(L, k) != j ==> At(nodes, k, j) == At(b, k, j)
      ensures k > 0 && Shr(L, k) == j ==> At(b, k, j).Blank?
    {
      AtRemoved(nodes, L, k, j);
    }
    BlankedHashesOk(nodes, b, L);
  }

  // ---------------------------------------------------------------- adding a member

  lemma {:induction false} WithoutConcat(a: seq<nat>, b: seq<nat>, ex: set<nat>)
    ensures Without(a + b, ex) == Without(a, ex) + Without(b, ex)
  {
    if a == [] {
      assert a + b == b;
    } else {
      assert (a + b)[1..] == a[1..] + b;
      WithoutConcat(a[1..], b, ex);
    }
  }

  lemma {:induction false} WithoutAbsent(s: seq<nat>, ex: set<nat>, x: nat)
    requires x !in s
    ensures Without(s, ex + {x}) == Without(s, ex)
  {
    if s != [] { WithoutAbsent(s[1..], ex, x); }
  }

  lemma {:induction false} WithoutInserted(s: seq<nat>, ex: set<nat>, x: nat)
    requires x !in s
    ensures Without(Insert(s, x), ex + {x}) == Without(s, ex)
  {
    var i := InsertPoint(s, x);
    WithoutAbsent(s, ex, x);
    assert s == s[..i] + s[i..];
    WithoutConcat(s[..i], s[i..], ex + {x});
    WithoutConcat(s[..i] + [x], s[i..], ex + {x});
    WithoutConcat(s[..i], [x], ex + {x});
    assert Without([x], ex + {x}) == [];
  }

  /** Leaf u is listed nowhere. */
  ghost predicate Unlisted(nodes: Nodes, u: nat) {
    forall k: nat, j: nat :: At(nodes, k, j).ParentSlot? ==> u !in At(nodes, k, j).parent.unmerged
  }

  lemma BlankUnlisted(nodes: Nodes, u: nat)
    requires Placed(nodes) && At(nodes, 0, u).Blank?
    ensures Unlisted(nodes, u)
  {
  }

  /** The new leaf is invisible to a hash that excludes it: the original tree hash is unchanged. */
  lemma {:induction false} AddedTreeHash(a: Nodes, b: Nodes, L: nat, leaf: LeafNode, k: nat, j: nat, ex: set<nat>)
    requires AddView(a, b, L, leaf) && Unlisted(a, L)
    ensures TreeHash(b, k, j, ex + {L}) == TreeHash(a, k, j, ex)
    decreases k
  {
    if k == 0 {
      assert Shr(L, 0) == L;
    } else {
      AddedTreeHash(a, b, L, leaf, k - 1, 2 * j, ex);
      AddedTreeHash(a, b, L, leaf, k - 1, 2 * j + 1, ex);
      AddedParentField(At(a, k, j), L, ex);
      assert At(b, k, j) == At(a, k, j) || At(b, k, j) == WithUnmerged(At(a, k, j), L);
    }
  }

  function HashedParent(slot: Slot, ex: set<nat>): Option<ParentNode> {
    if slot.ParentSlot? then Some(slot.parent.(unmerged := Without(slot.parent.unmerged, ex))) else None
  }

  lemma AddedParentField(slot: Slot, L: nat, ex: set<nat>)
    requires slot.ParentSlot? ==> L !in slot.parent.unmerged
    ensures HashedParent(slot, ex + {L}) == HashedParent(slot, ex)
    ensures HashedParent(WithUnmerged(slot, L), ex + {L}) == HashedParent(slot, ex)
  {
    if slot.ParentSlot? {
      WithoutInserted(slot.parent.unmerged, ex, L);
      WithoutAbsent(slot.parent.unmerged, ex, L);
    }
  }

  lemma LeafIndexEntries(s: seq<nat>)
    ensures Entries(LeafIndices(s)) == set u | u in s :: Index(0, u)
  {
    forall d | d in Entries(LeafIndices(s)) ensures d in set u | u in s :: Index(0, u) {
      var i :| 0 <= i < |s| && LeafIndices(s)[i] == d;
      assert s[i] in s && d == Index(0, s[i]);
    }
    forall d | d in (set u | u in s :: Index(0, u)) ensures d in Entries(LeafIndices(s)) {
      var u :| u in s && d == Index(0, u);
      var i :| 0 <= i < |s| && s[i] == u;
      assert LeafIndices(s)[i] == d;
    }
  }

  function NewEntry(L: nat, k: nat, j: nat): set<nat> {
    if Shr(L, k) == j then {Index(0, L)} else {}
  }

  /** Exactly the new leaf joins the resolutions of its ancestors. */
  lemma {:induction false} AddedResolution(a: Nodes, b: Nodes, L: nat, leaf: LeafNode, k: nat, j: nat)
    requires AddView(a, b, L, leaf) && Typed(a)
    ensures Entries(Resolution(b, k, j)) == Entries(Resolution(a, k, j)) + NewEntry(L, k, j)
    decreases k
  {
    if k == 0 {
      assert Shr(L, 0) == L;
    } else if At(a, k, j).ParentSlot? {
      if Shr(L, k) == j { AddedEntries(At(a, k, j).parent.unmerged, L, Index(k, j)); }
    } else {
      AddedResolution(a, b, L, leaf, k - 1, 2 * j);
      AddedResolution(a, b, L, leaf, k - 1, 2 * j + 1);
      assert At(b, k, j).Blank?;
      BlankEntries(a, k, j);
      BlankEntries(b, k, j);
      assert NewEntry(L, k, j) == NewEntry(L, k - 1, 2 * j) + NewEntry(L, k - 1, 2 * j + 1);
    }
  }

  lemma {:induction false} BlankEntries(nodes: Nodes, k: nat, j: nat)
    requires k > 0 && At(nodes, k, j).Blank?
    ensures Entries(Resolution(nodes, k, j)) ==
            Entries(Resolution(nodes, k - 1, 2 * j)) + Entries(Resolution(nodes, k - 1, 2 * j + 1))
  {
    EntriesConcat(Resolution(nodes, k - 1, 2 * j), Resolution(nodes, k - 1, 2 * j + 1));
  }

  lemma EntriesConcat(a: seq<nat>, b: seq<nat>)
    ensures Entries(a + b) == Entries(a) + Entries(b)
  {
  }

  lemma AddedEntries(s: seq<nat>, L: nat, i: nat)
    ensures Entries([i] + LeafIndices(Insert(s, L))) == Entries([i] + LeafIndices(s)) + {Index(0, L)}
  {
    EntriesConcat([i], LeafIndices(s));
    EntriesConcat([i], LeafIndices(Insert(s, L)));
    LeafIndexEntries(s);
    LeafIndexEntries(Insert(s, L));
    InsertMembers(s, L);
  }

  /** A blank, unlisted leaf resolves nowhere. */
  lemma {:induction false} BlankNotResolved(nodes: Nodes, k: nat, j: nat, u: nat)
    requires Typed(nodes) && At(nodes, 0, u).Blank? && Unlisted(nodes, u)
    ensures Index(0, u) !in Resolution(nodes, k, j)
  {
    match At(nodes, k, j)
    case LeafSlot(_) =>
      assert k == 0;
      IndexCoordinates(0, u);
      IndexCoordinates(0, j);
    case ParentSlot(p) =>
      IndexCoordinates(0, u);
      IndexCoordinates(k, j);
    case Blank =>
      if k > 0 {
        BlankNotResolved(nodes, k - 1, 2 * j, u);
        BlankNotResolved(nodes, k - 1, 2 * j + 1, u);
      }
  }

  lemma AddedStored(a: Nodes, b: Nodes, L: nat, leaf: LeafNode, d: nat)
    requires AddView(a, b, L, leaf) && leaf.body.source.KeyPackageSource?
    ensures StoredHash(SlotAt(b, d)) == if d == Index(0, L) then None else StoredHash(SlotAt(a, d))
  {
    CoordinatesIndex(d);
    IndexCoordinates(0, L);
    var k, j := Level(d), Position(d);
    assert Shr(L, 0) == L;
    assert At(a, k, j) == SlotAt(a, d) && At(b, k, j) == SlotAt(b, d);
  }

  /** Nothing a match of p depends on is changed by the addition. */
  lemma AddedMatches(a: Nodes, b: Nodes, L: nat, leaf: LeafNode, p: ParentNode, k: nat, c: nat, s: nat)
    requires AddView(a, b, L, leaf) && Typed(a) && Unlisted(a, L)
    requires leaf.body.source.KeyPackageSource? && L !in p.unmerged
    ensures Matches(b, p.(unmerged := Insert(p.unmerged, L)), k, c, s) == Matches(a, p, k, c, s)
  {
    var q := p.(unmerged := Insert(p.unmerged, L));
    InsertMembers(p.unmerged, L);
    assert Leaves(q.unmerged) == Leaves(p.unmerged) + {L};
    AddedTreeHash(a, b, L, leaf, k, s, Leaves(p.unmerged));
    AddedResolution(a, b, L, leaf, k, c);
    BlankNotResolved(a, k, c, L);
    AddedUnmergedBelow(p, L, k, c);
    forall d ensures d in Resolution(b, k, c) && MatchAt(b, q, k, c, s, d) <==>
                     d in Resolution(a, k, c) && MatchAt(a, p, k, c, s, d)
    {
      AddedMatchAt(a, b, L, leaf, p, q, k, c, s, d);
    }
  }

  lemma AddedUnmergedBelow(p: ParentNode, L: nat, k: nat, c: nat)
    requires L !in p.unmerged
    ensures
      var q := p.(unmerged := Insert(p.unmerged, L));
      UnmergedBelow(q, k, c) == UnmergedBelow(p, k, c) + NewEntry(L, k, c) && Index(0, L) !in UnmergedBelow(p, k, c)
  {
    InsertMembers(p.unmerged, L);
    forall u | u in p.unmerged ensures Index(0, u) != Index(0, L) {
      IndexCoordinates(0, u);
      IndexCoordinates(0, L);
    }
  }

  lemma AddedMatchAt(a: Nodes, b: Nodes, L: nat, leaf: LeafNode, p: ParentNode, q: ParentNode, k: nat, c: nat, s: nat,
                     d: nat)
    requires AddView(a, b, L, leaf) && leaf.body.source.KeyPackageSource?
    requires ParentHashOf(b, q, k, s) == ParentHashOf(a, p, k, s)
    requires Entries(Resolution(b, k, c)) == Entries(Resolution(a, k, c)) + NewEntry(L, k, c)
    requires UnmergedBelow(q, k, c) == UnmergedBelow(p, k, c) + NewEntry(L, k, c)
    requires Index(0, L) !in Entries(Resolution(a, k, c)) + UnmergedBelow(p, k, c)
    ensures d in Resolution(b, k, c) && MatchAt(b, q, k, c, s, d) <==>
            d in Resolution(a, k, c) && MatchAt(a, p, k, c, s, d)
  {
    AddedStored(a, b, L, leaf, d);
    assert d in Resolution(b, k, c) <==> d in Entries(Resolution(b, k, c));
    assert d in Resolution(a, k, c) <==> d in Entries(Resolution(a, k, c));
    if d != Index(0, L) {
      ShiftedSets(Entries(Resolution(a, k, c)), UnmergedBelow(p, k, c), NewEntry(L, k, c), d);
    }
  }

  lemma ShiftedSets(a: set<nat>, e: set<nat>, x: set<nat>, d: nat)
    requires a !! x && e !! x && d !in x
    ensures (a + x) - {d} == e + x <==> a - {d} == e
  {
    assert (a + x) - {d} == (a - {d}) + x;
    if (a - {d}) + x == e + x {
      assert a - {d} == ((a - {d}) + x) - x;
      assert e == (e + x) - x;
    }
  }

  lemma AddedHashOk(a: Nodes, b: Nodes, L: nat, leaf: LeafNode, k: nat, j: nat)
    requires AddView(a, b, L, leaf) && Typed(a) && Unlisted(a, L)
    requires leaf.body.source.KeyPackageSource? && k > 0 && Shr(L, k) == j
    requires At(a, k, j).ParentSlot? && HashOk(a, At(a, k, j).parent, k - 1, j)
    ensures HashOk(b, At(b, k, j).parent, k - 1, j)
  {
    var p := At(a, k, j).parent;
    AddedMatches(a, b, L, leaf, p, k - 1, 2 * j, 2 * j + 1);
    AddedMatches(a, b, L, leaf, p, k - 1, 2 * j + 1, 2 * j);
  }

  lemma AddedHashesOk(nodes: Nodes, leaf: LeafNode)
    requires Complete(nodes) && Typed(nodes) && Placed(nodes) && HashesOk(nodes)
    requires leaf.body.source.KeyPackageSource?
    ensures HashesOk(AddedLeaf(nodes, leaf))
  {
    AddedViews(nodes, leaf);
    AddViewHashesOk(nodes, AddedLeaf(nodes, leaf), AddSlot(nodes), leaf);
  }

  lemma AddViewHashesOk(a: Nodes, b: Nodes, L: nat, leaf: LeafNode)
    requires AddView(a, b, L, leaf) && Typed(a) && Placed(a) && HashesOk(a)
    requires leaf.body.source.KeyPackageSource?
    ensures HashesOk(b)
  {
    BlankUnlisted(a, L);
    forall k: nat, j: nat | k > 0 && At(b, k, j).ParentSlot? ensures HashOk(b, At(b, k, j).parent, k - 1, j) {
      if Shr(L, k) != j { OffPathHashOk(a, b, L, k, j); } else { AddedHashOk(a, b, L, leaf, k, j); }
    }
  }

  // ---------------------------------------------------------------- installing a path

  /** No stored parent hash was computed over one of these keys. */
  ghost predicate FreshKeys(nodes: Nodes, pubs: seq<PublicKey>) {
    forall i: nat, h: nat, key, above, sibling ::
      0 <= h < |pubs| && StoredHash(SlotAt(nodes, i)) == Some(ParentHash(key, above, sibling)) ==> key != pubs[h]
  }

  /** On the new path each node resolves to the nearest installed node below it, which carries
      the hash of the next one above. */
  lemma {:induction false} PathResolution(a: Nodes, b: Nodes, L: nat, pubs: seq<PublicKey>, leaf: LeafNode, k: nat)
    requires MergeView(a, b, L, pubs, leaf) && k <= Height(a)
    requires leaf.body.source == CommitSource(LeafParentHash(a, L, pubs))
    ensures
      var res := Resolution(b, k, Shr(L, k));
      |res| == 1 && StoredHash(SlotAt(b, res[0])) == Some(HashAbove(a, L, pubs, k, Height(a)))
    decreases k
  {
    if k == 0 {
      assert Shr(L, 0) == L;
    } else if !Filtered(a, L, k) {
      PathResolution(a, b, L, pubs, leaf, k - 1);
      var pc := Shr(L, k - 1);
      var c := Flip(pc);
      OffPathBelow(a, b, L, k - 1, c);
      ResolutionFrame(a, b, k - 1, c);
      assert Resolution(b, k - 1, c) == [];
      BlankResolution(b, k, pc);
    }
  }

  lemma {:induction false} BlankResolution(nodes: Nodes, k: nat, c: nat)
    requires k > 0 && At(nodes, k, c / 2).Blank? && Resolution(nodes, k - 1, Flip(c)) == []
    ensures Resolution(nodes, k, c / 2) == Resolution(nodes, k - 1, c)
  {
    var j := c / 2;
    assert Resolution(nodes, k, j) == Resolution(nodes, k - 1, 2 * j) + Resolution(nodes, k - 1, 2 * j + 1);
    assert c == if c % 2 == 0 then 2 * j else 2 * j + 1;
  }

  lemma PathMatches(a: Nodes, b: Nodes, L: nat, pubs: seq<PublicKey>, leaf: LeafNode, k: nat)
    requires MergeView(a, b, L, pubs, leaf) && 0 < k <= Height(a) && Filtered(a, L, k)
    requires leaf.body.source == CommitSource(LeafParentHash(a, L, pubs))
    ensures
      var c := Shr(L, k - 1);
      Matches(b, At(b, k, Shr(L, k)).parent, k - 1, c, Flip(c))
  {
    var c, h := Shr(L, k - 1), k - 1;
    var p := At(b, k, Shr(L, k)).parent;
    PathResolution(a, b, L, pubs, leaf, h);
    OffPathBelow(a, b, L, h, Flip(c));
    TreeHashFrame(a, b, h, Flip(c), {});
    assert Leaves(p.unmerged) == {};
    assert ParentHashOf(b, p, h, Flip(c)) == HashAbove(a, L, pubs, h, Height(a));
    SingleEntryMatches(b, p, h, c, Flip(c));
  }

  lemma SingleEntryMatches(nodes: Nodes, p: ParentNode, k: nat, c: nat, s: nat)
    requires |Resolution(nodes, k, c)| == 1 && p.unmerged == []
    requires StoredHash(SlotAt(nodes, Resolution(nodes, k, c)[0])) == Some(ParentHashOf(nodes, p, k, s))
    ensures Matches(nodes, p, k, c, s)
  {
    var d := Resolution(nodes, k, c)[0];
    assert Resolution(nodes, k, c) == [d];
    assert Entries([d]) - {d} == {};
    assert d in Resolution(nodes, k, c) && MatchAt(nodes, p, k, c, s, d);
  }

  lemma CopathDoesNotMatch(a: Nodes, b: Nodes, L: nat, pubs: seq<PublicKey>, leaf: LeafNode, k: nat)
    requires MergeView(a, b, L, pubs, leaf) && Placed(a) && 0 < k <= Height(a) && Filtered(a, L, k)
    requires FreshKeys(a, pubs) && |pubs| == Rank(a, L, Height(a))
    ensures
      var c := Shr(L, k - 1);
      !Matches(b, At(b, k, Shr(L, k)).parent, k - 1, Flip(c), c)
  {
    var c, h := Shr(L, k - 1), k - 1;
    var f := Flip(c);
    OffPathBelow(a, b, L, h, f);
    ResolutionFrame(a, b, h, f);
    RankBound(a, L, k, Height(a));
    var p := At(b, k, Shr(L, k)).parent;
    assert p.key == pubs[Rank(a, L, k) - 1];
    forall d | d in Resolution(a, h, f) ensures !MatchAt(b, p, h, f, c, d) {
      EntrySlotFrame(a, b, h, f, d);
    }
  }

  lemma {:induction false} RankBound(nodes: Nodes, L: nat, k: nat, H: nat)
    requires k <= H
    ensures Rank(nodes, L, k) <= Rank(nodes, L, H)
    ensures Filtered(nodes, L, k) ==> 0 < Rank(nodes, L, k)
    decreases H - k
  {
    if k < H { RankBound(nodes, L, k + 1, H); }
  }

  /** Installing a fresh path with its commit leaf keeps every parent valid. */
  lemma MergedHashesOk(nodes: Nodes, L: nat, pubs: seq<PublicKey>, leaf: LeafNode)
    requires Complete(nodes) && Placed(nodes) && HashesOk(nodes) && 2 * L < |nodes|
    requires |pubs| == Rank(nodes, L, Height(nodes)) && FreshKeys(nodes, pubs)
    requires leaf.body.source == CommitSource(LeafParentHash(nodes, L, pubs))
    ensures HashesOk(Merged(nodes, L, pubs, leaf))
  {
    MergedView(nodes, L, pubs, leaf);
    MergeViewHashesOk(nodes, Merged(nodes, L, pubs, leaf), L, pubs, leaf);
  }

  lemma MergeViewHashesOk(a: Nodes, b: Nodes, L: nat, pubs: seq<PublicKey>, leaf: LeafNode)
    requires MergeView(a, b, L, pubs, leaf) && Placed(a) && HashesOk(a)
    requires |pubs| == Rank(a, L, Height(a)) && FreshKeys(a, pubs)
    requires leaf.body.source == CommitSource(LeafParentHash(a, L, pubs))
    ensures HashesOk(b)
  {
    forall k: nat, j: nat | k > 0 && At(b, k, j).ParentSlot? ensures HashOk(b, At(b, k, j).parent, k - 1, j) {
      if Shr(L, k) != j {
        OffPathHashOk(a, b, L, k, j);
      } else {
        PathMatches(a, b, L, pubs, leaf, k);
        CopathDoesNotMatch(a, b, L, pubs, leaf, k);
        OneOrientation(b, At(b, k, j).parent, k - 1, Shr(L, k - 1));
      }
    }
  }

  lemma OneOrientation(nodes: Nodes, p: ParentNode, k: nat, c: nat)
    requires Matches(nodes, p, k, c, Flip(c)) && !Matches(nodes, p, k, Flip(c), c)
    ensures HashOk(nodes, p, k, c / 2)
  {
  }

  // ---------------------------------------------------------------- runs

  /** What the callers of the mutations guarantee: added leaves come from key packages, and a new
      path carries fresh keys and a commit leaf with the path's parent hash. */
  ghost predicate HonestOp(nodes: Nodes, op: TreeOp) {
    match op
    case UpdateOp(_, _) => true
    case RemoveOp(_) => true
    case AddOp(leaf) => leaf.body.source.KeyPackageSource?
    case PathOp(L, pubs, leaf) =>
      FreshKeys(nodes, pubs) && leaf.body.source == CommitSource(LeafParentHash(nodes, L, pubs))
  }

  /** Every tree of every run of honest mutations is parent-hash valid. */
  lemma {:induction false} ReachableHashesOk(run: seq<Nodes>, ops: seq<TreeOp>, i: nat)
    requires TreeRun(run, ops) && i < |run|
    requires forall h :: 0 <= h < |ops| ==> HonestOp(run[h], ops[h])
    ensures HashesOk(run[i])
  {
    if i == 0 {
      var leaf :| run[0] == [LeafSlot(leaf)];
      SingleLeafHashesOk(leaf);
    } else {
      ReachableOk(run, ops, i - 1);
      ParentsPlaced(run[i - 1]);
      ReachableHashesOk(run, ops, i - 1);
      assert Apply(run[i - 1], ops[i - 1]) == Some(run[i - 1 + 1]);
      match ops[i - 1]
      case UpdateOp(L, leaf) => UpdatedHashesOk(run[i - 1], L, leaf);
      case RemoveOp(L) => RemovedHashesOk(run[i - 1], L);
      case AddOp(leaf) => AddedHashesOk(run[i - 1], leaf);
      case PathOp(L, pubs, leaf) => MergedHashesOk(run[i - 1], L, pubs, leaf);
    }
  }

  lemma SingleLeafHashesOk(leaf: LeafNode)
    ensures HashesOk([LeafSlot(leaf)])
  {
    var t := [LeafSlot(leaf)];
    forall k: nat, j: nat ensures !At(t, k, j).ParentSlot? {
      IndexCoordinates(k, j);
    }
  }
}
