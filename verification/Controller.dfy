/** The membership controller's reconcile step (ironcore/controller.go): who commits, what is
    proposed, and that applying it leaves exactly the desired members. */
module Controller {

  import opened TreeMath
  import opened Symbolic
  import opened Ratchet
  import opened GroupOps

  type Identity = nat
  type Validator = (nat, nat) -> Option<Identity>
  type Directory = Identity -> Option<KeyPackage>

  function Validated(v: Validator, leaf: LeafNode): Option<Identity> {
    v(leaf.body.credential, leaf.body.sigKey)
  }

  /** Non-blank leaves below n, in order. */
  function ActiveBelow(nodes: Nodes, n: nat): seq<nat> {
    if n == 0 then []
    else ActiveBelow(nodes, n - 1) + if At(nodes, 0, n - 1).LeafSlot? then [n - 1] else []
  }

  function ActiveLeaves(nodes: Nodes): seq<nat> {
    ActiveBelow(nodes, LeafCount(nodes))
  }

  predicate Active(nodes: Nodes, leaf: nat) {
    At(nodes, 0, leaf).LeafSlot?
  }

  function IdentityAt(nodes: Nodes, v: Validator, leaf: nat): Option<Identity> {
    if Active(nodes, leaf) then Validated(v, At(nodes, 0, leaf).leaf) else None
  }

  /** Verified identity to leaf; a later leaf replaces an earlier one, an unverifiable one is skipped. */
  function IdentityToLeaf(nodes: Nodes, v: Validator, leaves: seq<nat>): map<Identity, nat> {
    if leaves == [] then map[]
    else
      var m, last := IdentityToLeaf(nodes, v, leaves[..|leaves| - 1]), leaves[|leaves| - 1];
      match IdentityAt(nodes, v, last)
      case None => m
      case Some(id) => m[id := last]
  }

  function RemoveSet(ids: map<Identity, nat>, desired: seq<Identity>): set<nat> {
    set id | id in ids && id !in desired :: ids[id]
  }

  function FirstOutside(leaves: seq<nat>, removed: set<nat>): Option<nat> {
    if leaves == [] then None
    else if leaves[0] !in removed then Some(leaves[0])
    else FirstOutside(leaves[1..], removed)
  }

  /** The lowest leaf, or the lowest surviving one if that is to be removed. */
  function Elected(leaves: seq<nat>, removed: set<nat>): Option<nat> {
    var first := if leaves == [] then 0 else leaves[0];
    if first in removed then FirstOutside(leaves, removed) else Some(first)
  }

  function Within(leaves: seq<nat>, chosen: set<nat>): seq<nat> {
    if leaves == [] then []
    else
      var rest := Within(leaves[..|leaves| - 1], chosen);
      if leaves[|leaves| - 1] in chosen then rest + [leaves[|leaves| - 1]] else rest
  }

  datatype Missing = Missing(adds: seq<Identity>, packages: seq<KeyPackage>, pending: seq<Identity>)

  /** Desired identities without a leaf: to add if the directory has a KeyPackage, else pending. */
  function MissingFrom(desired: seq<Identity>, ids: map<Identity, nat>, dir: Directory): (m: Missing)
    ensures |m.adds| == |m.packages|
  {
    if desired == [] then Missing([], [], [])
    else
      var rest, id := MissingFrom(desired[..|desired| - 1], ids, dir), desired[|desired| - 1];
      if id in ids then rest
      else
        match dir(id)
        case None => rest.(pending := rest.pending + [id])
        case Some(kp) => rest.(adds := rest.adds + [id], packages := rest.packages + [kp])
  }

  datatype Plan = NotCommitter | Nothing(pending: seq<Identity>) | Propose(removes: seq<nat>, missing: Missing)

  function Reconcile(nodes: Nodes, own: nat, v: Validator, dir: Directory, desired: seq<Identity>): Plan {
    var leaves := ActiveLeaves(nodes);
    var ids := IdentityToLeaf(nodes, v, leaves);
    var removed := RemoveSet(ids, desired);
    if Elected(leaves, removed) != Some(own) then NotCommitter
    else
      var removes, missing := Within(leaves, removed - {own}), MissingFrom(desired, ids, dir);
      if removes == [] && missing.adds == [] then Nothing(missing.pending) else Propose(removes, missing)
  }

  function Removals(removes: seq<nat>, own: nat): seq<Resolved> {
    seq(|removes|, i requires 0 <= i < |removes| => Resolved(Remove(removes[i]), own))
  }

  function Additions(packages: seq<KeyPackage>, own: nat): seq<Resolved> {
    seq(|packages|, i requires 0 <= i < |packages| => Resolved(Add(packages[i]), own))
  }

  function Proposals(removes: seq<nat>, packages: seq<KeyPackage>, own: nat): seq<Resolved> {
    Removals(removes, own) + Additions(packages, own)
  }

  // ---------------------------------------------------------------- the lists

  predicate Ascending(s: seq<nat>) {
    forall i, j | 0 <= i < j < |s| :: s[i] < s[j]
  }

  lemma AscendingSnoc(s: seq<nat>, x: nat)
    requires Ascending(s) && forall y | y in s :: y < x
    ensures Ascending(s + [x])
  {
    var t := s + [x];
    forall i, j | 0 <= i < j < |t| ensures t[i] < t[j] {
      if j == |s| { assert t[i] in s; }
    }
  }

  lemma {:induction false} ActiveBelowIs(nodes: Nodes, n: nat)
    ensures Ascending(ActiveBelow(nodes, n))
    ensures forall leaf: nat :: leaf in ActiveBelow(nodes, n) <==> leaf < n && Active(nodes, leaf)
  {
    if n > 0 {
      ActiveBelowIs(nodes, n - 1);
      AscendingSnoc(ActiveBelow(nodes, n - 1), n - 1);
    }
  }

  /** Exactly the non-blank leaves, in order. */
  lemma ActiveLeavesAre(nodes: Nodes)
    ensures Ascending(ActiveLeaves(nodes))
    ensures forall leaf: nat :: leaf in ActiveLeaves(nodes) <==> Active(nodes, leaf)
  {
    ActiveBelowIs(nodes, LeafCount(nodes));
    forall leaf: nat | Active(nodes, leaf) ensures leaf < LeafCount(nodes) { IndexStep(0, leaf); }
  }

  lemma {:induction false} WithinIs(leaves: seq<nat>, chosen: set<nat>)
    requires Ascending(leaves)
    ensures Ascending(Within(leaves, chosen))
    ensures forall x: nat :: x in Within(leaves, chosen) <==> x in leaves && x in chosen
  {
    if leaves != [] {
      assert leaves == leaves[..|leaves| - 1] + [leaves[|leaves| - 1]];
      WithinIs(leaves[..|leaves| - 1], chosen);
      AscendingSnoc(Within(leaves[..|leaves| - 1], chosen), leaves[|leaves| - 1]);
    }
  }

  /** With verified identities unique among the leaves, the map is their inverse. */
  ghost predicate Unique(nodes: Nodes, v: Validator) {
    forall a: nat, b: nat :: IdentityAt(nodes, v, a).Some? && IdentityAt(nodes, v, a) == IdentityAt(nodes, v, b) ==>
      a == b
  }

  lemma {:induction false} IdentityToLeafIs(nodes: Nodes, v: Validator, leaves: seq<nat>)
    requires Unique(nodes, v)
    ensures var m := IdentityToLeaf(nodes, v, leaves);
            && (forall id | id in m :: m[id] in leaves && IdentityAt(nodes, v, m[id]) == Some(id))
            && (forall leaf | leaf in leaves && IdentityAt(nodes, v, leaf).Some? ::
                 IdentityAt(nodes, v, leaf).value in m)
  {
    if leaves != [] {
      assert leaves == leaves[..|leaves| - 1] + [leaves[|leaves| - 1]];
      IdentityToLeafIs(nodes, v, leaves[..|leaves| - 1]);
    }
  }

  // ---------------------------------------------------------------- election

  lemma {:induction false} FirstOutsideIs(leaves: seq<nat>, removed: set<nat>)
    requires Ascending(leaves)
    ensures match FirstOutside(leaves, removed)
            case None => forall x | x in leaves :: x in removed
            case Some(l) => l in leaves && l !in removed && forall x | x in leaves && x !in removed :: l <= x
  {
    if leaves != [] {
      assert leaves == [leaves[0]] + leaves[1..];
      FirstOutsideIs(leaves[1..], removed);
    }
  }

  ghost predicate Survives(nodes: Nodes, v: Validator, desired: seq<Identity>, leaf: nat) {
    Active(nodes, leaf) && leaf !in RemoveSet(IdentityToLeaf(nodes, v, ActiveLeaves(nodes)), desired)
  }

  ghost predicate Proceeds(nodes: Nodes, v: Validator, dir: Directory, desired: seq<Identity>, own: nat) {
    Active(nodes, own) && Reconcile(nodes, own, v, dir, desired) != NotCommitter
  }

  /** Exactly one member proceeds, the lowest surviving leaf, whatever each one's directory holds;
      if no leaf survives, nobody does. */
  lemma OneProceeds(nodes: Nodes, v: Validator, dir: Directory, desired: seq<Identity>, own: nat)
    ensures Proceeds(nodes, v, dir, desired, own) <==>
            Survives(nodes, v, desired, own) && forall leaf: nat | Survives(nodes, v, desired, leaf) :: own <= leaf
  {
    var leaves := ActiveLeaves(nodes);
    var removed := RemoveSet(IdentityToLeaf(nodes, v, leaves), desired);
    ActiveLeavesAre(nodes);
    FirstOutsideIs(leaves, removed);
    if Active(nodes, own) {
      assert own in leaves;
      assert Elected(leaves, removed) == FirstOutside(leaves, removed);
      assert Proceeds(nodes, v, dir, desired, own) <==> FirstOutside(leaves, removed) == Some(own);
      if FirstOutside(leaves, removed).Some? {
        assert Survives(nodes, v, desired, FirstOutside(leaves, removed).value);
      }
    }
  }

  // ---------------------------------------------------------------- applying the plan

  ghost predicate Present(nodes: Nodes, v: Validator, id: Identity) {
    exists leaf: nat :: IdentityAt(nodes, v, leaf) == Some(id)
  }

  lemma {:induction false} RemovalsApply(nodes: Nodes, removes: seq<nat>, rest: seq<Resolved>, own: nat)
    requires Complete(nodes) && Ascending(removes) && (forall l | l in removes :: Active(nodes, l))
    requires forall r | r in rest :: !r.proposal.Remove?
    ensures var r := ApplyRemoves(nodes, Removals(removes, own) + rest);
            r.Some? && forall l: nat :: At(r.value, 0, l) == if l in removes then Blank else At(nodes, 0, l)
    decreases |removes|
  {
    var all := Removals(removes, own) + rest;
    if removes == [] {
      assert all == rest;
      NoRemovals(nodes, rest);
    } else {
      var first := removes[0];
      assert all[0].proposal == Remove(first) && all[1..] == Removals(removes[1..], own) + rest;
      assert Active(nodes, first);
      IndexStep(0, first);
      RefitComplete(BlankPath(nodes, first)[2 * first := Blank]);
      var next := RemovedLeaf(nodes, first);
      forall l: nat
        ensures At(next, 0, l) == if l == first then Blank else At(nodes, 0, l)
      {
        AtRemoved(nodes, first, 0, l);
      }
      forall l | l in removes[1..] ensures Active(next, l) { assert l in removes; }
      RemovalsApply(next, removes[1..], rest, own);
      assert removes == [first] + removes[1..];
    }
  }

  lemma {:induction false} NoRemovals(nodes: Nodes, rest: seq<Resolved>)
    requires Complete(nodes) && forall r | r in rest :: !r.proposal.Remove?
    ensures ApplyRemoves(nodes, rest) == Some(nodes)
    decreases |rest|
  {
    if rest != [] { NoRemovals(nodes, rest[1..]); }
  }

  lemma {:induction false} NoUpdates(nodes: Nodes, rs: seq<Resolved>)
    requires forall r | r in rs :: !r.proposal.Update?
    ensures ApplyUpdates(nodes, rs) == Some(nodes)
    decreases |rs|
  {
    if rs != [] { NoUpdates(nodes, rs[1..]); }
  }

  lemma {:induction false} SkipRemovals(nodes: Nodes, removes: seq<nat>, rest: seq<Resolved>, own: nat)
    requires Complete(nodes)
    ensures ApplyAdds(nodes, Removals(removes, own) + rest) == ApplyAdds(nodes, rest)
    decreases |removes|
  {
    var all := Removals(removes, own) + rest;
    if removes == [] {
      assert all == rest;
    } else {
      assert all[1..] == Removals(removes[1..], own) + rest;
      SkipRemovals(nodes, removes[1..], rest, own);
    }
  }

  lemma AddPresent(nodes: Nodes, v: Validator, leaf: LeafNode, id: Identity)
    requires Complete(nodes)
    ensures Present(AddedLeaf(nodes, leaf), v, id) <==> Present(nodes, v, id) || Validated(v, leaf) == Some(id)
  {
    var after, slot := AddedLeaf(nodes, leaf), AddSlot(nodes);
    forall l: nat ensures IdentityAt(after, v, l) == if l == slot then Validated(v, leaf) else IdentityAt(nodes, v, l) {
      AtAdded(nodes, leaf, 0, l);
    }
    assert IdentityAt(nodes, v, slot) == None;
    if Present(nodes, v, id) {
      var l: nat :| IdentityAt(nodes, v, l) == Some(id);
      assert IdentityAt(after, v, l) == Some(id);
    }
    if Validated(v, leaf) == Some(id) { assert IdentityAt(after, v, slot) == Some(id); }
  }

  lemma {:induction false} AdditionsApply(nodes: Nodes, v: Validator, packages: seq<KeyPackage>, own: nat, id: Identity)
    requires Complete(nodes)
    ensures Present(ApplyAdds(nodes, Additions(packages, own)).nodes, v, id) <==>
            Present(nodes, v, id) || exists i :: 0 <= i < |packages| && Validated(v, packages[i].leaf) == Some(id)
    decreases |packages|
  {
    if packages != [] {
      var leaf := packages[0].leaf;
      AddedComplete(nodes, leaf);
      var next := AddedLeaf(nodes, leaf);
      assert Additions(packages, own)[1..] == Additions(packages[1..], own);
      assert ApplyAdds(nodes, Additions(packages, own)).nodes == ApplyAdds(next, Additions(packages[1..], own)).nodes;
      AddPresent(nodes, v, leaf, id);
      AdditionsApply(next, v, packages[1..], own, id);
      if i :| 0 <= i < |packages| && Validated(v, packages[i].leaf) == Some(id) {
        if i > 0 { assert packages[1..][i - 1] == packages[i]; }
      }
      if i :| 0 <= i < |packages[1..]| && Validated(v, packages[1..][i].leaf) == Some(id) {
        assert packages[i + 1] == packages[1..][i];
      }
    }
  }

  /** The directory gives each identity a KeyPackage that verifies as that identity. */
  ghost predicate Honest(v: Validator, dir: Directory) {
    forall id: Identity :: dir(id).Some? ==> Validated(v, dir(id).value.leaf) == Some(id)
  }

  lemma {:induction false} MissingAre(desired: seq<Identity>, ids: map<Identity, nat>, dir: Directory, id: Identity)
    ensures var m := MissingFrom(desired, ids, dir);
            && (id in m.adds <==> id in desired && id !in ids && dir(id).Some?)
            && (id in m.pending <==> id in desired && id !in ids && dir(id).None?)
            && (forall i | 0 <= i < |m.adds| :: dir(m.adds[i]) == Some(m.packages[i]))
  {
    if desired != [] {
      assert desired == desired[..|desired| - 1] + [desired[|desired| - 1]];
      MissingAre(desired[..|desired| - 1], ids, dir, id);
    }
  }

  lemma RemovedPresent(nodes: Nodes, v: Validator, desired: seq<Identity>, after: Nodes, id: Identity)
    requires Unique(nodes, v)
    requires var removed := RemoveSet(IdentityToLeaf(nodes, v, ActiveLeaves(nodes)), desired);
             forall l: nat :: At(after, 0, l) == if l in removed then Blank else At(nodes, 0, l)
    ensures Present(after, v, id) <==> Present(nodes, v, id) && id in desired
  {
    var leaves := ActiveLeaves(nodes);
    var ids := IdentityToLeaf(nodes, v, leaves);
    ActiveLeavesAre(nodes);
    IdentityToLeafIs(nodes, v, leaves);
    forall l: nat | IdentityAt(nodes, v, l) == Some(id) ensures l in RemoveSet(ids, desired) <==> id !in desired {
      assert l in leaves && id in ids && ids[id] == l;
    }
    if Present(nodes, v, id) && id in desired {
      var l: nat :| IdentityAt(nodes, v, l) == Some(id);
      assert IdentityAt(after, v, l) == Some(id);
    }
    if Present(after, v, id) {
      var l: nat :| IdentityAt(after, v, l) == Some(id);
      assert IdentityAt(nodes, v, l) == Some(id);
    }
  }

  lemma RemovedUnique(nodes: Nodes, v: Validator, removed: set<nat>, after: Nodes)
    requires Unique(nodes, v) && forall l: nat :: At(after, 0, l) == if l in removed then Blank else At(nodes, 0, l)
    ensures Unique(after, v)
  {
    forall l: nat | IdentityAt(after, v, l).Some? ensures IdentityAt(after, v, l) == IdentityAt(nodes, v, l) {}
  }

  lemma AddUnique(nodes: Nodes, v: Validator, leaf: LeafNode)
    requires Complete(nodes) && Unique(nodes, v)
    requires Validated(v, leaf).Some? ==> !Present(nodes, v, Validated(v, leaf).value)
    ensures Unique(AddedLeaf(nodes, leaf), v)
  {
    var after, slot := AddedLeaf(nodes, leaf), AddSlot(nodes);
    forall l: nat ensures IdentityAt(after, v, l) == if l == slot then Validated(v, leaf) else IdentityAt(nodes, v, l) {
      AtAdded(nodes, leaf, 0, l);
    }
  }

  /** Packages for pairwise different identities, none of them a member's. */
  ghost predicate Newcomers(nodes: Nodes, v: Validator, packages: seq<KeyPackage>) {
    && (forall i | 0 <= i < |packages| ::
          Validated(v, packages[i].leaf).Some? && !Present(nodes, v, Validated(v, packages[i].leaf).value))
    && (forall i, j | 0 <= i < j < |packages| :: Validated(v, packages[i].leaf) != Validated(v, packages[j].leaf))
  }

  lemma {:induction false} AdditionsUnique(nodes: Nodes, v: Validator, packages: seq<KeyPackage>, own: nat)
    requires Complete(nodes) && Unique(nodes, v) && Newcomers(nodes, v, packages)
    ensures Unique(ApplyAdds(nodes, Additions(packages, own)).nodes, v)
    decreases |packages|
  {
    if packages != [] {
      var leaf, rest := packages[0].leaf, packages[1..];
      AddedComplete(nodes, leaf);
      var next := AddedLeaf(nodes, leaf);
      assert Additions(packages, own)[1..] == Additions(rest, own);
      assert ApplyAdds(nodes, Additions(packages, own)).nodes == ApplyAdds(next, Additions(rest, own)).nodes;
      AddUnique(nodes, v, leaf);
      forall i | 0 <= i < |rest|
        ensures Validated(v, rest[i].leaf).Some? && !Present(next, v, Validated(v, rest[i].leaf).value)
      {
        assert rest[i] == packages[i + 1];
        AddPresent(nodes, v, leaf, Validated(v, rest[i].leaf).value);
      }
      AdditionsUnique(next, v, rest, own);
    }
  }

  predicate Distinct(s: seq<Identity>) {
    forall i, j | 0 <= i < j < |s| :: s[i] != s[j]
  }

  lemma {:induction false} MissingDistinct(desired: seq<Identity>, ids: map<Identity, nat>, dir: Directory)
    requires Distinct(desired)
    ensures Distinct(MissingFrom(desired, ids, dir).adds)
  {
    if desired != [] {
      var init, last := desired[..|desired| - 1], desired[|desired| - 1];
      MissingDistinct(init, ids, dir);
      MissingAre(init, ids, dir, last);
      assert last !in init;
    }
  }

  /** What a plan leaves behind. */
  ghost predicate Reconciled(nodes: Nodes, v: Validator, desired: seq<Identity>, pending: seq<Identity>) {
    Unique(nodes, v) && forall id: Identity :: Present(nodes, v, id) <==> id in desired && id !in pending
  }

  lemma PresentIff(nodes: Nodes, v: Validator, id: Identity)
    requires Unique(nodes, v)
    ensures Present(nodes, v, id) <==> id in IdentityToLeaf(nodes, v, ActiveLeaves(nodes))
  {
    ActiveLeavesAre(nodes);
    IdentityToLeafIs(nodes, v, ActiveLeaves(nodes));
    if Present(nodes, v, id) {
      var l: nat :| IdentityAt(nodes, v, l) == Some(id);
      assert l in ActiveLeaves(nodes);
    }
  }

  lemma NewcomersMissing(nodes: Nodes, v: Validator, dir: Directory, desired: seq<Identity>, after: Nodes)
    requires Unique(nodes, v) && Honest(v, dir) && Distinct(desired)
    requires forall id: Identity :: Present(after, v, id) ==> Present(nodes, v, id)
    ensures Newcomers(after, v, MissingFrom(desired, IdentityToLeaf(nodes, v, ActiveLeaves(nodes)), dir).packages)
  {
    var ids := IdentityToLeaf(nodes, v, ActiveLeaves(nodes));
    var m := MissingFrom(desired, ids, dir);
    MissingDistinct(desired, ids, dir);
    forall i | 0 <= i < |m.packages|
      ensures Validated(v, m.packages[i].leaf) == Some(m.adds[i]) && !Present(after, v, m.adds[i])
    {
      MissingAre(desired, ids, dir, m.adds[i]);
      PresentIff(nodes, v, m.adds[i]);
    }
  }

  /** The committer's removes, then its adds, apply without error and leave exactly the desired
      identities that are not pending; a plan with nothing to commit finds that already so. */
  lemma PlanReconciles(nodes: Nodes, own: nat, v: Validator, dir: Directory, desired: seq<Identity>)
    requires Complete(nodes) && Unique(nodes, v) && Honest(v, dir) && Distinct(desired)
    ensures match Reconcile(nodes, own, v, dir, desired)
            case NotCommitter => true
            case Nothing(pending) => Reconciled(nodes, v, desired, pending)
            case Propose(removes, missing) =>
              var r := ApplyProposals(nodes, Proposals(removes, missing.packages, own));
              r.Some? && r.value.packages == missing.packages && Reconciled(r.value.nodes, v, desired, missing.pending)
  {
    var plan := Reconcile(nodes, own, v, dir, desired);
    if plan != NotCommitter {
      var leaves := ActiveLeaves(nodes);
      var ids := IdentityToLeaf(nodes, v, leaves);
      var removed, missing := RemoveSet(ids, desired), MissingFrom(desired, ids, dir);
      ActiveLeavesAre(nodes);
      FirstOutsideIs(leaves, removed);
      assert removed - {own} == removed;
      var removes := Within(leaves, removed);
      WithinIs(leaves, removed);
      IdentityToLeafIs(nodes, v, leaves);
      assert forall l | l in removed :: l in leaves;
      PlanApplies(nodes, own, v, dir, desired, removes);
    }
  }

  lemma PlanApplies(nodes: Nodes, own: nat, v: Validator, dir: Directory, desired: seq<Identity>, removes: seq<nat>)
    requires Complete(nodes) && Unique(nodes, v) && Honest(v, dir) && Distinct(desired) && Ascending(removes)
    requires forall l: nat :: l in removes <==> l in RemoveSet(IdentityToLeaf(nodes, v, ActiveLeaves(nodes)), desired)
    requires forall l: nat | l in removes :: Active(nodes, l)
    ensures var missing := MissingFrom(desired, IdentityToLeaf(nodes, v, ActiveLeaves(nodes)), dir);
            var r := ApplyProposals(nodes, Proposals(removes, missing.packages, own));
            r.Some? && r.value.packages == missing.packages && Reconciled(r.value.nodes, v, desired, missing.pending)
  {
    var ids := IdentityToLeaf(nodes, v, ActiveLeaves(nodes));
    var missing := MissingFrom(desired, ids, dir);
    var adds := Additions(missing.packages, own);
    var all := Proposals(removes, missing.packages, own);
    NoUpdates(nodes, all);
    RemovalsApply(nodes, removes, adds, own);
    var after := ApplyRemoves(nodes, all).value;
    SkipRemovals(after, removes, adds, own);
    RemovedUnique(nodes, v, RemoveSet(ids, desired), after);
    forall id: Identity ensures Present(after, v, id) <==> Present(nodes, v, id) && id in desired {
      RemovedPresent(nodes, v, desired, after, id);
    }
    NewcomersMissing(nodes, v, dir, desired, after);
    AdditionsUnique(after, v, missing.packages, own);
    AddedPackages(after, missing.packages, own);
    forall id: Identity
      ensures Present(ApplyAdds(after, adds).nodes, v, id) <==> id in desired && id !in missing.pending
    {
      AdditionsApply(after, v, missing.packages, own, id);
      MissingAre(desired, ids, dir, id);
      PresentIff(nodes, v, id);
      PackagesOf(desired, ids, v, dir, id);
    }
  }

  lemma {:induction false} AddedPackages(nodes: Nodes, packages: seq<KeyPackage>, own: nat)
    requires Complete(nodes)
    ensures ApplyAdds(nodes, Additions(packages, own)).packages == packages
    decreases |packages|
  {
    if packages != [] {
      AddedComplete(nodes, packages[0].leaf);
      assert Additions(packages, own)[1..] == Additions(packages[1..], own);
      AddedPackages(AddedLeaf(nodes, packages[0].leaf), packages[1..], own);
      assert packages == [packages[0]] + packages[1..];
    }
  }

  lemma PackagesOf(desired: seq<Identity>, ids: map<Identity, nat>, v: Validator, dir: Directory, id: Identity)
    requires Honest(v, dir)
    ensures var m := MissingFrom(desired, ids, dir);
            (exists i :: 0 <= i < |m.packages| && Validated(v, m.packages[i].leaf) == Some(id)) <==> id in m.adds
  {
    var m := MissingFrom(desired, ids, dir);
    MissingAre(desired, ids, dir, id);
    forall i | 0 <= i < |m.packages| ensures Validated(v, m.packages[i].leaf) == Some(m.adds[i]) {}
  }

  // ---------------------------------------------------------------- sorting in place

  function InsertSorted(s: seq<nat>, x: nat): seq<nat> {
    if s == [] || s[|s| - 1] <= x then s + [x] else InsertSorted(s[..|s| - 1], x) + [s[|s| - 1]]
  }

  function Sorted(s: seq<nat>): seq<nat> {
    if s == [] then [] else InsertSorted(Sorted(s[..|s| - 1]), s[|s| - 1])
  }

  predicate NonDecreasing(s: seq<nat>) {
    forall i, j | 0 <= i <= j < |s| :: s[i] <= s[j]
  }

  lemma {:induction false} InsertKeeps(s: seq<nat>, x: nat)
    ensures multiset(InsertSorted(s, x)) == multiset(s) + multiset{x}
    ensures forall y | y in InsertSorted(s, x) :: y in s || y == x
  {
    if s != [] && s[|s| - 1] > x {
      assert s == s[..|s| - 1] + [s[|s| - 1]];
      InsertKeeps(s[..|s| - 1], x);
    }
  }

  lemma NonDecreasingSnoc(s: seq<nat>, x: nat)
    requires NonDecreasing(s) && forall y | y in s :: y <= x
    ensures NonDecreasing(s + [x])
  {
    var t := s + [x];
    forall i, j | 0 <= i <= j < |t| ensures t[i] <= t[j] {
      if j == |s| && i < j { assert t[i] in s; }
    }
  }

  lemma {:induction false} InsertSortedIs(s: seq<nat>, x: nat)
    requires NonDecreasing(s)
    ensures NonDecreasing(InsertSorted(s, x))
  {
    if s == [] || s[|s| - 1] <= x {
      NonDecreasingSnoc(s, x);
    } else {
      var init, last := s[..|s| - 1], s[|s| - 1];
      InsertSortedIs(init, x);
      InsertKeeps(init, x);
      NonDecreasingSnoc(InsertSorted(init, x), last);
    }
  }

  /** In order, and the same numbers as often. */
  lemma {:induction false} SortedIs(s: seq<nat>)
    ensures NonDecreasing(Sorted(s)) && multiset(Sorted(s)) == multiset(s)
  {
    if s != [] {
      assert s == s[..|s| - 1] + [s[|s| - 1]];
      SortedIs(s[..|s| - 1]);
      InsertSortedIs(Sorted(s[..|s| - 1]), s[|s| - 1]);
      InsertKeeps(Sorted(s[..|s| - 1]), s[|s| - 1]);
    }
  }

  /** Where the shifting loop stops is where the number belongs. */
  lemma {:induction false} InsertSortedAt(s: seq<nat>, x: nat, n: nat)
    requires n <= |s| && (forall i | n <= i < |s| :: s[i] > x) && (n > 0 ==> s[n - 1] <= x)
    ensures InsertSorted(s, x) == s[..n] + [x] + s[n..]
  {
    if n == |s| {
      assert s[..n] == s && s[n..] == [];
    } else {
      var init := s[..|s| - 1];
      InsertSortedAt(init, x, n);
      assert s[..n] == init[..n] && s[n..] == init[n..] + [s[|s| - 1]];
    }
  }

  /** sortUint32 */
  method SortInPlace(a: array<nat>)
    modifies a
    ensures a[..] == Sorted(old(a[..]))
  {
    ghost var was := a[..];
    if a.Length == 0 { return; }
    assert was[..1][..0] == [] && was[..1] == [was[0]] && Sorted([]) == [];
    var i := 1;
    while i < a.Length
      invariant 1 <= i <= a.Length
      invariant a[..i] == Sorted(was[..i]) && a[i..] == was[i..]
    {
      assert was[..i + 1][..i] == was[..i] && a[i] == was[i];
      InsertAt(a, i);
      assert a[i + 1..] == was[i..][1..];
      i := i + 1;
    }
    assert a[..i] == a[..] && was[..i] == was;
  }

  /** The inner loop: shift what is larger up by one and put the number in the gap. */
  method InsertAt(a: array<nat>, i: nat)
    requires 0 < i < a.Length
    modifies a
    ensures a[..i + 1] == InsertSorted(old(a[..i]), old(a[i])) && a[i + 1..] == old(a[i + 1..])
  {
    ghost var s := a[..i];
    var key := a[i];
    var j := i;
    while j > 0 && a[j - 1] > key
      invariant 0 <= j <= i
      invariant a[..j] == s[..j] && a[j + 1..i + 1] == s[j..] && a[i + 1..] == old(a[i + 1..])
      invariant forall k | j <= k < i :: s[k] > key
    {
      ghost var shifted := a[j + 1..i + 1];
      a[j] := a[j - 1];
      j := j - 1;
      assert a[j + 1..i + 1] == [s[j]] + shifted;
    }
    a[j] := key;
    InsertSortedAt(s, key, j);
    assert a[..i + 1] == a[..j] + [a[j]] + a[j + 1..i + 1];
  }

  // ---------------------------------------------------------------- reconciling step by step

  method CollectIdentities(nodes: Nodes, v: Validator) returns (m: map<Identity, nat>)
    ensures m == IdentityToLeaf(nodes, v, ActiveLeaves(nodes))
  {
    var leaves := ActiveLeaves(nodes);
    m := map[];
    var i := 0;
    while i < |leaves|
      invariant 0 <= i <= |leaves| && m == IdentityToLeaf(nodes, v, leaves[..i])
    {
      assert leaves[..i + 1][..i] == leaves[..i];
      var id := IdentityAt(nodes, v, leaves[i]);
      if id.Some? { m := m[id.value := leaves[i]]; }
      i := i + 1;
    }
    assert leaves[..i] == leaves;
  }

  method CollectRemoved(ids: map<Identity, nat>, desired: seq<Identity>) returns (removed: set<nat>)
    ensures removed == RemoveSet(ids, desired)
  {
    removed := {};
    var left := ids.Keys;
    while left != {}
      invariant left <= ids.Keys && removed == set id | id in ids && id !in left && id !in desired :: ids[id]
      decreases left
    {
      var id :| id in left;
      if id !in desired { removed := removed + {ids[id]}; }
      left := left - {id};
    }
  }

  method Elect(leaves: seq<nat>, removed: set<nat>) returns (committer: Option<nat>)
    ensures committer == Elected(leaves, removed)
  {
    var first := if |leaves| > 0 then leaves[0] else 0;
    if first !in removed { return Some(first); }
    var i := 0;
    while i < |leaves|
      invariant 0 <= i <= |leaves| && FirstOutside(leaves[i..], removed) == FirstOutside(leaves, removed)
    {
      if leaves[i] !in removed { return Some(leaves[i]); }
      assert leaves[i..][1..] == leaves[i + 1..];
      i := i + 1;
    }
    committer := None;
  }

  method CollectMissing(desired: seq<Identity>, ids: map<Identity, nat>, dir: Directory) returns (m: Missing)
    ensures m == MissingFrom(desired, ids, dir)
  {
    m := Missing([], [], []);
    var i := 0;
    while i < |desired|
      invariant 0 <= i <= |desired| && m == MissingFrom(desired[..i], ids, dir)
    {
      assert desired[..i + 1][..i] == desired[..i];
      if desired[i] !in ids {
        var kp := dir(desired[i]);
        if kp.None? { m := m.(pending := m.pending + [desired[i]]); }
        else { m := m.(adds := m.adds + [desired[i]], packages := m.packages + [kp.value]); }
      }
      i := i + 1;
    }
    assert desired[..i] == desired;
  }

  /** A set, drained in any order and sorted in place, comes out in its one ascending order. */
  method Drain(chosen: set<nat>) returns (s: seq<nat>)
    ensures Ascending(s) && forall x: nat :: x in s <==> x in chosen
  {
    var a := new nat[|chosen|];
    var left, i := chosen, 0;
    while left != {}
      invariant left <= chosen && i + |left| == |chosen| == a.Length
      invariant multiset(a[..i]) == multiset(chosen - left)
      decreases left
    {
      var x :| x in left;
      a[i] := x;
      assert a[..i + 1] == a[..i] + [x];
      assert chosen - (left - {x}) == (chosen - left) + {x};
      left, i := left - {x}, i + 1;
    }
    assert a[..i] == a[..] && chosen - left == chosen;
    ghost var drained := a[..];
    SortInPlace(a);
    s := a[..];
    SortedIs(drained);
    SortedSetAscending(s, chosen);
  }

  lemma SortedSetAscending(s: seq<nat>, chosen: set<nat>)
    requires NonDecreasing(s) && multiset(s) == multiset(chosen)
    ensures Ascending(s) && forall x: nat :: x in s <==> x in chosen
  {
    forall x: nat ensures x in s <==> x in chosen { assert x in multiset(s) <==> x in multiset(chosen); }
    forall i, j | 0 <= i < j < |s| ensures s[i] < s[j] {
      if s[i] == s[j] { TwiceIn(s, i, j); }
    }
  }

  lemma TwiceIn(s: seq<nat>, i: nat, j: nat)
    requires i < j < |s| && s[i] == s[j]
    ensures multiset(s)[s[i]] >= 2
  {
    assert s == s[..j] + [s[j]] + s[j + 1..];
    assert s[i] in s[..j];
  }

  lemma {:induction false} AscendingUnique(s: seq<nat>, t: seq<nat>)
    requires Ascending(s) && Ascending(t) && forall x: nat :: x in s <==> x in t
    ensures s == t
    decreases |s|
  {
    assert |t| > 0 ==> t[0] in t;
    if s != [] {
      var a := s[|s| - 1];
      assert a in s;
      var i :| 0 <= i < |t| && t[i] == a;
      var b, s1, t1 := t[|t| - 1], s[..|s| - 1], t[..|t| - 1];
      assert b in t;
      assert b in s;
      assert a == b && s == s1 + [a] && t == t1 + [b];
      forall x: nat ensures x in s1 <==> x in t1 {
        assert x in s1 <==> x in s && x != a;
        assert x in t1 <==> x in t && x != b;
      }
      AscendingUnique(s1, t1);
    }
  }

  method PlanFor(nodes: Nodes, own: nat, v: Validator, dir: Directory, desired: seq<Identity>) returns (plan: Plan)
    ensures plan == Reconcile(nodes, own, v, dir, desired)
  {
    var ids := CollectIdentities(nodes, v);
    var removed := CollectRemoved(ids, desired);
    var leaves := ActiveLeaves(nodes);
    var committer := Elect(leaves, removed);
    if committer != Some(own) { return NotCommitter; }
    var removes := Drain(removed - {own});
    ActiveLeavesAre(nodes);
    WithinIs(leaves, removed - {own});
    RemovedActive(nodes, v, leaves);
    AscendingUnique(removes, Within(leaves, removed - {own}));
    var missing := CollectMissing(desired, ids, dir);
    if |removes| == 0 && |missing.adds| == 0 { return Nothing(missing.pending); }
    plan := Propose(removes, missing);
  }

  lemma {:induction false} RemovedActive(nodes: Nodes, v: Validator, leaves: seq<nat>)
    ensures forall id | id in IdentityToLeaf(nodes, v, leaves) :: IdentityToLeaf(nodes, v, leaves)[id] in leaves
  {
    if leaves != [] {
      assert leaves == leaves[..|leaves| - 1] + [leaves[|leaves| - 1]];
      RemovedActive(nodes, v, leaves[..|leaves| - 1]);
    }
  }
}
