/** Who can decrypt what: every member but the sender is covered by exactly one resolution entry
    of the sender's copath (mls/tree/treesync.go, treekem.go). */
module Coverage {
  import opened TreeMath
  import opened Symbolic
  import opened Ratchet
  import opened PathInstall
  import opened TreeInvariant

  /** Member m holds the key of entry d: a leaf covers itself, a parent node covers the members
      below it that it does not list as unmerged. */
  predicate Covers(nodes: Nodes, d: nat, m: nat) {
    && At(nodes, 0, m).LeafSlot?
    && Shr(m, Level(d)) == Position(d)
    && (SlotAt(nodes, d).ParentSlot? ==> m !in SlotAt(nodes, d).parent.unmerged)
  }

  predicate CoversOnly(nodes: Nodes, entries: seq<nat>, i: nat, m: nat) {
    && i < |entries|
    && Covers(nodes, entries[i], m)
    && (forall h :: 0 <= h < |entries| && Covers(nodes, entries[h], m) ==> h == i)
  }

  /** Entries of a resolution lie below the resolved node and are not blank. */
  lemma {:induction false} EntryBelow(nodes: Nodes, k: nat, j: nat, i: nat)
    requires ParentsOk(nodes) && i < |Resolution(nodes, k, j)|
    ensures
      var d := Resolution(nodes, k, j)[i];
      Level(d) <= k && Shr(Position(d), k - Level(d)) == j && !SlotAt(nodes, d).Blank?
  {
    IndexCoordinates(k, j);
    match At(nodes, k, j)
    case Blank =>
      if k > 0 {
        var d, l := Resolution(nodes, k, j)[i], |Resolution(nodes, k - 1, 2 * j)|;
        if i < l { EntryBelow(nodes, k - 1, 2 * j, i); } else { EntryBelow(nodes, k - 1, 2 * j + 1, i - l); }
        assert Shr(Position(d), k - Level(d)) == Shr(Position(d), k - 1 - Level(d)) / 2;
      }
    case LeafSlot(_) =>
    case ParentSlot(p) =>
      if i > 0 {
        assert ParentOk(nodes, k, j, p);
        var u := p.unmerged[i - 1];
        assert u in p.unmerged;
        IndexCoordinates(0, u);
      }
  }

  lemma {:induction false} NotCoveredElsewhere(nodes: Nodes, k: nat, j: nat, m: nat)
    requires ParentsOk(nodes) && Shr(m, k) != j
    ensures forall i :: 0 <= i < |Resolution(nodes, k, j)| ==> !Covers(nodes, Resolution(nodes, k, j)[i], m)
  {
    forall i | 0 <= i < |Resolution(nodes, k, j)| ensures !Covers(nodes, Resolution(nodes, k, j)[i], m) {
      var d := Resolution(nodes, k, j)[i];
      EntryBelow(nodes, k, j, i);
      ShrAdd(m, Level(d), k - Level(d));
    }
  }

  /** Where in the resolution of (k, j) member m's entry stands. */
  function CoverIndex(nodes: Nodes, k: nat, j: nat, m: nat): nat {
    match At(nodes, k, j)
    case LeafSlot(_) => 0
    case ParentSlot(p) => if m in p.unmerged then 1 + IndexOf(p.unmerged, m) else 0
    case Blank =>
      if k == 0 then 0
      else if Shr(m, k - 1) == 2 * j then CoverIndex(nodes, k - 1, 2 * j, m)
      else |Resolution(nodes, k - 1, 2 * j)| + CoverIndex(nodes, k - 1, 2 * j + 1, m)
  }

  function IndexOf(s: seq<nat>, x: nat): (i: nat)
    requires x in s
    ensures i < |s| && s[i] == x
  {
    if s[0] == x then 0 else 1 + IndexOf(s[1..], x)
  }

  lemma {:induction false} CoveredOnce(nodes: Nodes, k: nat, j: nat, m: nat)
    requires ParentsOk(nodes) && Shr(m, k) == j && At(nodes, 0, m).LeafSlot?
    ensures CoversOnly(nodes, Resolution(nodes, k, j), CoverIndex(nodes, k, j, m), m)
  {
    match At(nodes, k, j)
    case LeafSlot(_) => IndexCoordinates(k, j);
    case ParentSlot(p) => CoveredByParent(nodes, k, j, m);
    case Blank =>
      if k > 0 {
        var l, r := 2 * j, 2 * j + 1;
        if Shr(m, k - 1) == l {
          CoveredOnce(nodes, k - 1, l, m);
          NotCoveredElsewhere(nodes, k - 1, r, m);
        } else {
          CoveredOnce(nodes, k - 1, r, m);
          NotCoveredElsewhere(nodes, k - 1, l, m);
        }
        CoveredByConcat(nodes, Resolution(nodes, k - 1, l), Resolution(nodes, k - 1, r), CoverIndex(nodes, k, j, m), m);
      }
  }

  lemma CoveredByConcat(nodes: Nodes, a: seq<nat>, b: seq<nat>, i: nat, m: nat)
    requires
      || (CoversOnly(nodes, a, i, m) && forall h :: 0 <= h < |b| ==> !Covers(nodes, b[h], m))
      || (i >= |a| && CoversOnly(nodes, b, i - |a|, m) && forall h :: 0 <= h < |a| ==> !Covers(nodes, a[h], m))
    ensures CoversOnly(nodes, a + b, i, m)
  {
  }

  lemma CoveredByParent(nodes: Nodes, k: nat, j: nat, m: nat)
    requires ParentsOk(nodes) && Shr(m, k) == j && At(nodes, 0, m).LeafSlot? && At(nodes, k, j).ParentSlot?
    ensures CoversOnly(nodes, Resolution(nodes, k, j), CoverIndex(nodes, k, j, m), m)
  {
    var p := At(nodes, k, j).parent;
    var res := Resolution(nodes, k, j);
    assert k > 0;
    assert ParentOk(nodes, k, j, p);
    IndexCoordinates(k, j);
    forall h | 0 < h < |res| ensures Covers(nodes, res[h], m) <==> p.unmerged[h - 1] == m {
      var u := p.unmerged[h - 1];
      IndexCoordinates(0, u);
      assert u in p.unmerged;
      assert SlotAt(nodes, res[h]) == At(nodes, 0, u);
    }
  }

  // ---------------------------------------------------------------- the sender's copath

  /** Level of the lowest common ancestor. */
  function Meet(a: nat, b: nat): (k: nat)
    ensures Shr(a, k) == Shr(b, k)
    ensures k > 0 ==> Shr(a, k - 1) != Shr(b, k - 1)
    ensures a != b ==> k > 0
    decreases a + b
  {
    if a == b then 0
    else
      ShrHalf(a, Meet(a / 2, b / 2));
      ShrHalf(b, Meet(a / 2, b / 2));
      MeetStep(a, b, Meet(a / 2, b / 2));
      1 + Meet(a / 2, b / 2)
  }

  lemma {:induction false} ShrHalf(x: nat, k: nat)
    ensures Shr(x, k + 1) == Shr(x / 2, k)
  {
    if k > 0 { ShrHalf(x, k - 1); }
  }

  lemma MeetStep(a: nat, b: nat, k: nat)
    requires a != b
    requires k > 0 ==> Shr(a / 2, k - 1) != Shr(b / 2, k - 1)
    ensures Shr(a, k) != Shr(b, k)
  {
    if k > 0 {
      ShrHalf(a, k - 1);
      ShrHalf(b, k - 1);
    }
  }

  lemma {:induction false} MeetUnique(a: nat, b: nat, k: nat)
    requires Shr(a, k) == Shr(b, k) && (k > 0 ==> Shr(a, k - 1) != Shr(b, k - 1))
    ensures k == Meet(a, b)
  {
    var h := Meet(a, b);
    if h < k { ShrMeet(a, b, h, k - 1); }
    if k < h { ShrMeet(a, b, k, h - 1); }
  }

  /** m sits below the level-k copath child of L exactly when the two paths meet at level k. */
  lemma {:induction false} CopathHolds(L: nat, m: nat, k: nat)
    requires k > 0
    ensures Shr(m, k - 1) == Flip(Shr(L, k - 1)) <==> k == Meet(L, m)
  {
    if Shr(m, k - 1) == Flip(Shr(L, k - 1)) { MeetUnique(L, m, k); }
  }

  lemma {:induction false} MeetInTree(nodes: Nodes, L: nat, m: nat)
    requires Complete(nodes) && 2 * L < |nodes| && 2 * m < |nodes|
    ensures Meet(L, m) <= Height(nodes)
  {
    var H := Height(nodes);
    InWidth(0, L, H);
    InWidth(0, m, H);
    ShrZero(L, H);
    ShrZero(m, H);
    if H < Meet(L, m) { ShrMeet(L, m, H, Meet(L, m) - 1); }
  }

  /** Entry (k, i): the i-th entry of the copath resolution at the filtered level k. */
  predicate IsCoverEntry(nodes: Nodes, L: nat, m: nat, k: nat, i: nat) {
    && 0 < k <= Height(nodes) && Filtered(nodes, L, k)
    && i < |CopathResolution(nodes, L, k)|
    && Covers(nodes, CopathResolution(nodes, L, k)[i], m)
  }

  function CoverPosition(nodes: Nodes, L: nat, m: nat): nat
    requires L != m
  {
    var k := Meet(L, m);
    CoverIndex(nodes, k - 1, Flip(Shr(L, k - 1)), m)
  }

  /** Each member other than the sender is covered by exactly one entry over all levels. */
  lemma CoveredExactlyOnce(nodes: Nodes, L: nat, m: nat)
    requires WellFormed(nodes) && 2 * L < |nodes| && L != m && At(nodes, 0, m).LeafSlot?
    ensures IsCoverEntry(nodes, L, m, Meet(L, m), CoverPosition(nodes, L, m))
    ensures forall k: nat, i: nat :: IsCoverEntry(nodes, L, m, k, i) ==>
              k == Meet(L, m) && i == CoverPosition(nodes, L, m)
  {
    var k0 := Meet(L, m);
    MeetInTree(nodes, L, m);
    CopathHolds(L, m, k0);
    CoveredOnce(nodes, k0 - 1, Flip(Shr(L, k0 - 1)), m);
    forall k: nat, i: nat | IsCoverEntry(nodes, L, m, k, i)
      ensures k == k0 && i == CoverPosition(nodes, L, m)
    {
      CopathHolds(L, m, k);
      if k != k0 { NotCoveredElsewhere(nodes, k - 1, Flip(Shr(L, k - 1)), m); }
    }
  }

  /** The sender's own leaf is covered by none of its copath entries. */
  lemma SenderNotCovered(nodes: Nodes, L: nat, k: nat, i: nat)
    requires ParentsOk(nodes)
    ensures !IsCoverEntry(nodes, L, L, k, i)
  {
    if k > 0 { NotCoveredElsewhere(nodes, k - 1, Flip(Shr(L, k - 1)), L); }
  }
}
