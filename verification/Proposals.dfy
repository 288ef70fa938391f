/** What applying any proposals keeps of a tree, seen from a member they do not remove
    (mls/group/process.go). */
module Proposals {

  import opened TreeMath
  import opened Symbolic
  import opened Ratchet
  import opened PathInstall
  import opened TreeInvariant
  import opened GroupOps
  import opened GroupAgreement

  /** Every parent of b is one of a, with the same key, and lists m only if it did so before. */
  ghost predicate Carried(a: Nodes, b: Nodes, m: nat) {
    forall k: nat, j: nat {:trigger At(b, k, j)} | k > 0 && At(b, k, j).ParentSlot? ::
      && At(a, k, j).ParentSlot? && At(a, k, j).parent.key == At(b, k, j).parent.key
      && (m in At(b, k, j).parent.unmerged ==> m in At(a, k, j).parent.unmerged)
  }

  /** Nothing on m's path but its leaf. */
  ghost predicate Cleared(nodes: Nodes, m: nat) {
    forall k: nat {:trigger At(nodes, k, Shr(m, k))} | k > 0 :: At(nodes, k, Shr(m, k)).Blank?
  }

  lemma CarriedThen(a: Nodes, b: Nodes, c: Nodes, m: nat)
    requires Carried(a, b, m) && Carried(b, c, m)
    ensures Carried(a, c, m)
  {
  }

  lemma ClearedKept(a: Nodes, b: Nodes, m: nat)
    requires Cleared(a, m) && Carried(a, b, m) && Typed(b)
    ensures Cleared(b, m)
  {
    forall k: nat | k > 0 ensures At(b, k, Shr(m, k)).Blank? {
      assert At(a, k, Shr(m, k)).Blank?;
    }
  }

  lemma CarriedBlank(a: Nodes, b: Nodes, L: nat, m: nat)
    requires SameOff(a, b, L) && Cleared(b, L)
    ensures Carried(a, b, m)
  {
    forall k: nat, j: nat | k > 0 ensures At(b, k, j).ParentSlot? ==> At(a, k, j) == At(b, k, j) {
      if Shr(L, k) == j { assert At(b, k, Shr(L, k)).Blank?; }
    }
  }

  lemma CarriedAdd(a: Nodes, b: Nodes, L: nat, leaf: LeafNode, m: nat)
    requires AddView(a, b, L, leaf) && m != L
    ensures Carried(a, b, m)
  {
    forall k: nat, j: nat | k > 0 && At(b, k, j).ParentSlot?
      ensures At(a, k, j).ParentSlot? && At(a, k, j).parent.key == At(b, k, j).parent.key
      ensures m in At(b, k, j).parent.unmerged ==> m in At(a, k, j).parent.unmerged
    {
      if Shr(L, k) == j {
        assert At(b, k, Shr(L, k)) == WithUnmerged(At(a, k, Shr(L, k)), L);
        InsertMembers(At(a, k, j).parent.unmerged, L);
      }
    }
  }

  lemma {:induction false} UpdatesCarry(nodes: Nodes, rs: seq<Resolved>, m: nat)
    requires WellFormed(nodes) && ApplyUpdates(nodes, rs).Some?
    ensures var b := ApplyUpdates(nodes, rs).value;
            WellFormed(b) && Carried(nodes, b, m) && (NoUpdateBy(rs, m) || Cleared(b, m))
    decreases |rs|
  {
    if rs != [] {
      assert rs == [rs[0]] + rs[1..];
      if rs[0].proposal.Update? {
        var L, leaf := rs[0].sender, rs[0].proposal.leaf;
        var b := UpdatedLeaf(nodes, L, leaf);
        UpdatedOk(nodes, L, leaf);
        UpdatedView(nodes, L, leaf);
        CarriedBlank(nodes, b, L, m);
        UpdatesCarry(b, rs[1..], m);
        CarriedThen(nodes, b, ApplyUpdates(nodes, rs).value, m);
        if L == m { ClearedKept(b, ApplyUpdates(nodes, rs).value, m); }
      } else {
        UpdatesCarry(nodes, rs[1..], m);
      }
    }
  }

  lemma {:induction false} RemovesCarry(nodes: Nodes, rs: seq<Resolved>, m: nat)
    requires WellFormed(nodes) && ApplyRemoves(nodes, rs).Some?
    ensures WellFormed(ApplyRemoves(nodes, rs).value) && Carried(nodes, ApplyRemoves(nodes, rs).value, m)
    decreases |rs|
  {
    if rs != [] {
      if rs[0].proposal.Remove? {
        var L := rs[0].proposal.removed;
        var b := RemovedLeaf(nodes, L);
        RemovedOk(nodes, L);
        RemovedView(nodes, L);
        CarriedBlank(nodes, b, L, m);
        RemovesCarry(b, rs[1..], m);
        CarriedThen(nodes, b, ApplyRemoves(nodes, rs).value, m);
      } else {
        RemovesCarry(nodes, rs[1..], m);
      }
    }
  }

  lemma {:induction false} AddsCarry(nodes: Nodes, rs: seq<Resolved>, m: nat)
    requires WellFormed(nodes)
    ensures var b := ApplyAdds(nodes, rs).nodes; WellFormed(b) && (At(nodes, 0, m).LeafSlot? ==> Carried(nodes, b, m))
    decreases |rs|
  {
    if rs != [] {
      if rs[0].proposal.Add? {
        var leaf := rs[0].proposal.keyPackage.leaf;
        var b := AddedLeaf(nodes, leaf);
        AddedOk(nodes, leaf);
        AddsCarry(b, rs[1..], m);
        if At(nodes, 0, m).LeafSlot? {
          AddedViews(nodes, leaf);
          OtherLeaf(nodes, b, AddSlot(nodes), m);
          CarriedAdd(nodes, b, AddSlot(nodes), leaf, m);
          CarriedThen(nodes, b, ApplyAdds(nodes, rs).nodes, m);
        }
      } else {
        AddsCarry(nodes, rs[1..], m);
      }
    }
  }

  lemma {:induction false} UpdatesKeepLeaf(nodes: Nodes, rs: seq<Resolved>, m: nat)
    requires At(nodes, 0, m).LeafSlot? && ApplyUpdates(nodes, rs).Some?
    ensures At(ApplyUpdates(nodes, rs).value, 0, m).LeafSlot?
    decreases |rs|
  {
    if rs != [] {
      if rs[0].proposal.Update? {
        var L, leaf := rs[0].sender, rs[0].proposal.leaf;
        UpdatedView(nodes, L, leaf);
        if L != m { OtherLeaf(nodes, UpdatedLeaf(nodes, L, leaf), L, m); }
        UpdatesKeepLeaf(UpdatedLeaf(nodes, L, leaf), rs[1..], m);
      } else {
        UpdatesKeepLeaf(nodes, rs[1..], m);
      }
    }
  }

  /** Each added package sits at its leaf, none of them c's. */
  predicate Seated(adds: Additions, c: nat) {
    && |adds.leaves| == |adds.packages| && c !in adds.leaves
    && forall h :: 0 <= h < |adds.leaves| ==> At(adds.nodes, 0, adds.leaves[h]) == LeafSlot(adds.packages[h].leaf)
  }

  lemma {:induction false} AddsSeated(nodes: Nodes, rs: seq<Resolved>, c: nat)
    requires Complete(nodes) && At(nodes, 0, c).LeafSlot?
    ensures Seated(ApplyAdds(nodes, rs), c)
  {
    AddsSpare(nodes, rs, c);
    forall h | 0 <= h < |ApplyAdds(nodes, rs).leaves|
      ensures At(ApplyAdds(nodes, rs).nodes, 0, ApplyAdds(nodes, rs).leaves[h]) ==
              LeafSlot(ApplyAdds(nodes, rs).packages[h].leaf)
    {
      AddsPlace(nodes, rs, h);
    }
  }

  /** Proposals that do not remove leaf c: the tree stays well formed and c's place is its own. */
  lemma ProposalsPlace(nodes: Nodes, rs: seq<Resolved>, c: nat)
    requires WellFormed(nodes) && At(nodes, 0, c).LeafSlot? && NoRemove(rs, c) && ApplyProposals(nodes, rs).Some?
    ensures WellFormed(ApplyProposals(nodes, rs).value.nodes) && Seated(ApplyProposals(nodes, rs).value, c)
  {
    var updated := ApplyUpdates(nodes, rs).value;
    UpdatesCarry(nodes, rs, c);
    UpdatesKeepLeaf(nodes, rs, c);
    RemovesCarry(updated, rs, c);
    RemovesSpare(updated, rs, c);
    var removed := ApplyRemoves(updated, rs).value;
    AddsCarry(removed, rs, c);
    AddsSeated(removed, rs, c);
  }

  lemma {:induction false} OwnUpdateNamed(rs: seq<Resolved>, m: nat, pending: map<PublicKey, PrivateKey>)
    ensures OwnUpdate(rs, m, pending).NewKey? ==> !NoUpdateBy(rs, m)
  {
    if rs != [] {
      assert rs == [rs[0]] + rs[1..];
      assert rs[0] in rs;
      OwnUpdateNamed(rs[1..], m, pending);
    }
  }

  /** After the proposals the tree is well formed, m's leaf is in place with its working key, its
      ancestors are as they were or blank, and all blank if m updated its leaf. */
  lemma ProposalsCarry(nodes: Nodes, rs: seq<Resolved>, m: nat, priv: map<nat, PrivateKey>,
                       pending: map<PublicKey, PrivateKey>)
    requires WellFormed(nodes) && HoldsLeafKey(nodes, m, priv) && PendingOk(pending)
    requires OneUpdateEach(rs) && NoRemove(rs, m) && ApplyProposals(nodes, rs).Some?
    requires !OwnUpdate(rs, m, pending).MissingKey?
    ensures
      var adds, own := ApplyProposals(nodes, rs).value, OwnUpdate(rs, m, pending);
      && WellFormed(adds.nodes) && Carried(nodes, adds.nodes, m) && (own.NewKey? ==> Cleared(adds.nodes, m))
      && m !in adds.leaves && HoldsLeafKey(adds.nodes, m, WorkingKeys(own, m, priv))
  {
    ProposalsMember(nodes, rs, m, priv, pending);
    var updated := ApplyUpdates(nodes, rs).value;
    UpdatesCarry(nodes, rs, m);
    OwnUpdateNamed(rs, m, pending);
    RemovesCarry(updated, rs, m);
    var removed := ApplyRemoves(updated, rs).value;
    RemainsAt(nodes, rs, m, priv, pending);
    AddsCarry(removed, rs, m);
    CarriedThen(nodes, updated, removed, m);
    CarriedThen(nodes, removed, ApplyAdds(removed, rs).nodes, m);
    if OwnUpdate(rs, m, pending).NewKey? {
      ClearedKept(updated, removed, m);
      ClearedKept(removed, ApplyAdds(removed, rs).nodes, m);
    }
  }

  lemma RemainsAt(nodes: Nodes, rs: seq<Resolved>, m: nat, priv: map<nat, PrivateKey>,
                  pending: map<PublicKey, PrivateKey>)
    requires Complete(nodes) && HoldsLeafKey(nodes, m, priv) && PendingOk(pending)
    requires OneUpdateEach(rs) && NoRemove(rs, m) && ApplyProposals(nodes, rs).Some?
    requires !OwnUpdate(rs, m, pending).MissingKey?
    ensures At(ApplyRemoves(ApplyUpdates(nodes, rs).value, rs).value, 0, m).LeafSlot?
  {
    UpdatesMember(nodes, rs, m, priv, pending);
    RemovesSpare(ApplyUpdates(nodes, rs).value, rs, m);
  }
}
