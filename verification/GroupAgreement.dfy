/** One commit by a group's only committer: it succeeds, keeps the committer's tree sound, every
    other member who processes it lands in the committer's epoch, and so does every joiner. */
module GroupAgreement {
  import opened TreeMath
  import opened Symbolic
  import opened Ratchet
  import opened PathInstall
  import opened TreeInvariant
  import opened Coverage
  import opened ParentHashes
  import opened TreeKem
  import opened KeySchedule
  import opened GroupOps

  // ---------------------------------------------------------------- invariants

  /** Non-blank parents lie only on the direct path of leaf c. */
  ghost predicate SingleWriter(nodes: Nodes, c: nat) {
    forall k: nat, j: nat :: k > 0 && At(nodes, k, j).ParentSlot? ==> Shr(c, k) == j
  }

  ghost predicate TreeOk(nodes: Nodes, c: nat, groupId: nat) {
    WellFormed(nodes) && HashesOk(nodes) && SingleWriter(nodes, c) && VerifyLeaves(nodes, groupId)
  }

  /** Leaf c is present with the given signature key. */
  predicate LeafWith(nodes: Nodes, c: nat, sigKey: nat) {
    At(nodes, 0, c).LeafSlot? && At(nodes, 0, c).leaf.body.sigKey == sigKey
  }

  ghost predicate CommitterOk(s: GroupState) {
    TreeOk(s.nodes, s.ownLeaf, s.gc.groupId) && LeafWith(s.nodes, s.ownLeaf, s.signer)
  }

  /** Two states are in the same epoch with the same tree, context, transcript and secrets. */
  predicate SameEpoch(a: GroupState, b: GroupState) {
    a.gc == b.gc && a.nodes == b.nodes && a.es == b.es && a.interim == b.interim && a.init == b.init
  }

  /** Holds the current key of leaf L, and otherwise only keys of parent nodes. */
  predicate HoldsLeafKey(nodes: Nodes, L: nat, priv: map<nat, PrivateKey>) {
    && At(nodes, 0, L).LeafSlot?
    && 2 * L in priv && priv[2 * L].seed == At(nodes, 0, L).leaf.body.key.seed
    && (forall x | x in priv :: x == 2 * L || Level(x) > 0)
  }

  predicate PendingOk(pending: map<PublicKey, PrivateKey>) {
    forall pk | pk in pending :: pending[pk].seed == pk.seed
  }

  /** Member m follows committer c. */
  predicate Follows(m: GroupState, c: GroupState) {
    SameEpoch(m, c) && m.ownLeaf != c.ownLeaf && HoldsLeafKey(m.nodes, m.ownLeaf, m.priv) && PendingOk(m.pending)
  }

  // ---------------------------------------------------------------- honest proposals

  /** The leaf is signed for slot L and shares no key with another leaf. */
  ghost predicate NewLeafOk(nodes: Nodes, L: nat, leaf: LeafNode, groupId: nat) {
    VerifyLeaf(leaf, groupId, L) && forall M: nat :: M != L ==> !SameKeys(At(nodes, 0, M), LeafSlot(leaf))
  }

  ghost predicate HonestUpdates(nodes: Nodes, rs: seq<Resolved>, c: nat, signer: nat, groupId: nat)
    decreases |rs|
  {
    if rs == [] then true
    else if !rs[0].proposal.Update? then HonestUpdates(nodes, rs[1..], c, signer, groupId)
    else
      var L, leaf := rs[0].sender, rs[0].proposal.leaf;
      2 * L < |nodes| && NewLeafOk(nodes, L, leaf, groupId) && (L == c ==> leaf.body.sigKey == signer) &&
      HonestUpdates(UpdatedLeaf(nodes, L, leaf), rs[1..], c, signer, groupId)
  }

  ghost predicate HonestRemoves(nodes: Nodes, rs: seq<Resolved>, c: nat)
    requires Complete(nodes)
    decreases |rs|
  {
    if rs == [] then true
    else if !rs[0].proposal.Remove? then HonestRemoves(nodes, rs[1..], c)
    else
      var L := rs[0].proposal.removed;
      2 * L < |nodes| && L != c &&
      (RefitComplete(BlankPath(nodes, L)[2 * L := Blank]);
       HonestRemoves(RemovedLeaf(nodes, L), rs[1..], c))
  }

  ghost predicate HonestAdds(nodes: Nodes, rs: seq<Resolved>, groupId: nat)
    requires Complete(nodes)
    decreases |rs|
  {
    if rs == [] then true
    else if !rs[0].proposal.Add? then HonestAdds(nodes, rs[1..], groupId)
    else
      var leaf := rs[0].proposal.keyPackage.leaf;
      leaf.body.source.KeyPackageSource? && NewLeafOk(nodes, AddSlot(nodes), leaf, groupId) &&
      (AddedComplete(nodes, leaf);
       HonestAdds(AddedLeaf(nodes, leaf), rs[1..], groupId))
  }

  /** Applied in order, every proposal is in range, spares leaf c, and places only leaves that are
      validly signed for their slot with keys nobody else in the tree has. */
  ghost predicate HonestProposals(nodes: Nodes, rs: seq<Resolved>, c: nat, signer: nat, groupId: nat)
    requires Complete(nodes)
  {
    && HonestUpdates(nodes, rs, c, signer, groupId)
    && ApplyUpdates(nodes, rs).Some?
    && HonestRemoves(ApplyUpdates(nodes, rs).value, rs, c)
    && ApplyRemoves(ApplyUpdates(nodes, rs).value, rs).Some?
    && HonestAdds(ApplyRemoves(ApplyUpdates(nodes, rs).value, rs).value, rs, groupId)
  }

  // ---------------------------------------------------------------- one mutation

  lemma LeavesKept(a: Nodes, b: Nodes, L: nat, groupId: nat)
    requires VerifyLeaves(a, groupId) && SameOff(a, b, L)
    requires At(b, 0, L).LeafSlot? ==> NewLeafOk(a, L, At(b, 0, L).leaf, groupId)
    ensures VerifyLeaves(b, groupId)
  {
    forall M: nat | M != L ensures At(b, 0, M) == At(a, 0, M) { assert Shr(L, 0) == L; }
    forall M: nat, N: nat | SameKeys(At(b, 0, M), At(b, 0, N)) ensures M == N {
      if M != L && N != L { assert SameKeys(At(a, 0, M), At(a, 0, N)); }
    }
  }

  lemma WriterKept(a: Nodes, b: Nodes, L: nat, c: nat)
    requires SingleWriter(a, c) && SameOff(a, b, L)
    requires forall k: nat {:trigger At(b, k, Shr(L, k))} :: k > 0 && At(b, k, Shr(L, k)).ParentSlot? ==>
               L == c || At(a, k, Shr(L, k)).ParentSlot?
    ensures SingleWriter(b, c)
  {
    forall k: nat, j: nat | k > 0 && At(b, k, j).ParentSlot? ensures Shr(c, k) == j {
      if Shr(L, k) != j {
        assert At(a, k, j) == At(b, k, j);
      } else {
        assert At(b, k, Shr(L, k)).ParentSlot?;
      }
    }
  }

  lemma UpdateKeepsTree(nodes: Nodes, L: nat, leaf: LeafNode, c: nat, groupId: nat)
    requires TreeOk(nodes, c, groupId) && 2 * L < |nodes| && NewLeafOk(nodes, L, leaf, groupId)
    ensures TreeOk(UpdatedLeaf(nodes, L, leaf), c, groupId)
  {
    var b := UpdatedLeaf(nodes, L, leaf);
    UpdatedOk(nodes, L, leaf);
    ParentsPlaced(nodes);
    UpdatedHashesOk(nodes, L, leaf);
    UpdatedView(nodes, L, leaf);
    WriterKept(nodes, b, L, c);
    LeavesKept(nodes, b, L, groupId);
  }

  lemma UpdatedView(nodes: Nodes, L: nat, leaf: LeafNode)
    requires 2 * L < |nodes|
    ensures
      var b := UpdatedLeaf(nodes, L, leaf);
      && SameOff(nodes, b, L) && At(b, 0, L) == LeafSlot(leaf)
      && (forall k: nat {:trigger At(b, k, Shr(L, k))} :: k > 0 ==> At(b, k, Shr(L, k)).Blank?)
  {
    var b := UpdatedLeaf(nodes, L, leaf);
    forall k: nat, j: nat
      ensures At(b, k, j) == if Shr(L, k) != j then At(nodes, k, j) else if k == 0 then LeafSlot(leaf) else Blank
    {
      AtUpdated(nodes, L, leaf, k, j);
    }
    assert Shr(L, 0) == L;
  }

  lemma RemovedView(nodes: Nodes, L: nat)
    requires 2 * L < |nodes|
    ensures
      var b := RemovedLeaf(nodes, L);
      && SameOff(nodes, b, L) && At(b, 0, L).Blank?
      && (forall k: nat {:trigger At(b, k, Shr(L, k))} :: k > 0 ==> At(b, k, Shr(L, k)).Blank?)
  {
    var b := RemovedLeaf(nodes, L);
    forall k: nat, j: nat ensures At(b, k, j) == if Shr(L, k) != j then At(nodes, k, j) else Blank {
      AtRemoved(nodes, L, k, j);
    }
    assert Shr(L, 0) == L;
  }

  lemma RemoveKeepsTree(nodes: Nodes, L: nat, c: nat, groupId: nat)
    requires TreeOk(nodes, c, groupId) && 2 * L < |nodes|
    ensures TreeOk(RemovedLeaf(nodes, L), c, groupId)
  {
    var b := RemovedLeaf(nodes, L);
    RemovedOk(nodes, L);
    ParentsPlaced(nodes);
    RemovedHashesOk(nodes, L);
    RemovedView(nodes, L);
    WriterKept(nodes, b, L, c);
    LeavesKept(nodes, b, L, groupId);
  }

  lemma AddKeepsTree(nodes: Nodes, leaf: LeafNode, c: nat, groupId: nat)
    requires TreeOk(nodes, c, groupId) && leaf.body.source.KeyPackageSource?
    requires NewLeafOk(nodes, AddSlot(nodes), leaf, groupId)
    ensures TreeOk(AddedLeaf(nodes, leaf), c, groupId)
  {
    var b := AddedLeaf(nodes, leaf);
    AddedOk(nodes, leaf);
    ParentsPlaced(nodes);
    AddedHashesOk(nodes, leaf);
    AddedViews(nodes, leaf);
    WriterKept(nodes, b, AddSlot(nodes), c);
    LeavesKept(nodes, b, AddSlot(nodes), groupId);
  }

  lemma OtherLeaf(a: Nodes, b: Nodes, L: nat, m: nat)
    requires SameOff(a, b, L) && L != m
    ensures At(a, 0, m) == At(b, 0, m)
  {
    assert Shr(L, 0) == L;
  }

  // ---------------------------------------------------------------- all proposals

  lemma {:induction false} UpdatesKeep(nodes: Nodes, rs: seq<Resolved>, c: nat, signer: nat, groupId: nat)
    requires TreeOk(nodes, c, groupId) && LeafWith(nodes, c, signer)
    requires HonestUpdates(nodes, rs, c, signer, groupId)
    ensures ApplyUpdates(nodes, rs).Some?
    ensures
      var r := ApplyUpdates(nodes, rs).value;
      TreeOk(r, c, groupId) && LeafWith(r, c, signer)
    decreases |rs|
  {
    if rs != [] {
      if rs[0].proposal.Update? {
        var L, leaf := rs[0].sender, rs[0].proposal.leaf;
        UpdateKeepsTree(nodes, L, leaf, c, groupId);
        UpdatedView(nodes, L, leaf);
        if L != c { OtherLeaf(nodes, UpdatedLeaf(nodes, L, leaf), L, c); }
        UpdatesKeep(UpdatedLeaf(nodes, L, leaf), rs[1..], c, signer, groupId);
      } else {
        UpdatesKeep(nodes, rs[1..], c, signer, groupId);
      }
    }
  }

  lemma {:induction false} RemovesKeep(nodes: Nodes, rs: seq<Resolved>, c: nat, signer: nat, groupId: nat)
    requires TreeOk(nodes, c, groupId) && LeafWith(nodes, c, signer)
    requires HonestRemoves(nodes, rs, c)
    ensures ApplyRemoves(nodes, rs).Some?
    ensures
      var r := ApplyRemoves(nodes, rs).value;
      TreeOk(r, c, groupId) && LeafWith(r, c, signer)
    decreases |rs|
  {
    if rs != [] {
      if rs[0].proposal.Remove? {
        var L := rs[0].proposal.removed;
        RemoveKeepsTree(nodes, L, c, groupId);
        RemovedView(nodes, L);
        OtherLeaf(nodes, RemovedLeaf(nodes, L), L, c);
        RemovesKeep(RemovedLeaf(nodes, L), rs[1..], c, signer, groupId);
      } else {
        RemovesKeep(nodes, rs[1..], c, signer, groupId);
      }
    }
  }

  /** Leaf m with its content is still there. */
  predicate StillAt(a: Nodes, b: Nodes, m: nat) {
    At(a, 0, m).LeafSlot? && At(b, 0, m) == At(a, 0, m)
  }

  lemma {:induction false} AddsKeep(nodes: Nodes, rs: seq<Resolved>, c: nat, groupId: nat)
    requires TreeOk(nodes, c, groupId) && HonestAdds(nodes, rs, groupId)
    ensures TreeOk(ApplyAdds(nodes, rs).nodes, c, groupId)
    decreases |rs|
  {
    if rs != [] {
      if rs[0].proposal.Add? {
        var leaf := rs[0].proposal.keyPackage.leaf;
        AddKeepsTree(nodes, leaf, c, groupId);
        AddsKeep(AddedLeaf(nodes, leaf), rs[1..], c, groupId);
      } else {
        AddsKeep(nodes, rs[1..], c, groupId);
      }
    }
  }

  /** Adding fills only blank slots. */
  lemma {:induction false} AddsSpare(nodes: Nodes, rs: seq<Resolved>, m: nat)
    requires Complete(nodes) && At(nodes, 0, m).LeafSlot?
    ensures m !in ApplyAdds(nodes, rs).leaves && StillAt(nodes, ApplyAdds(nodes, rs).nodes, m)
    decreases |rs|
  {
    if rs != [] {
      if rs[0].proposal.Add? {
        var leaf := rs[0].proposal.keyPackage.leaf;
        AddedViews(nodes, leaf);
        AddedComplete(nodes, leaf);
        OtherLeaf(nodes, AddedLeaf(nodes, leaf), AddSlot(nodes), m);
        AddsSpare(AddedLeaf(nodes, leaf), rs[1..], m);
      } else {
        AddsSpare(nodes, rs[1..], m);
      }
    }
  }

  /** Each added key package sits at its reported leaf. */
  lemma {:induction false} AddsPlace(nodes: Nodes, rs: seq<Resolved>, i: nat)
    requires Complete(nodes) && i < |ApplyAdds(nodes, rs).leaves|
    ensures
      var adds := ApplyAdds(nodes, rs);
      At(adds.nodes, 0, adds.leaves[i]) == LeafSlot(adds.packages[i].leaf)
    decreases |rs|
  {
    if rs[0].proposal.Add? {
      var leaf := rs[0].proposal.keyPackage.leaf;
      AddedViews(nodes, leaf);
      AddedComplete(nodes, leaf);
      if i == 0 { AddsSpare(AddedLeaf(nodes, leaf), rs[1..], AddSlot(nodes)); }
      else { AddsPlace(AddedLeaf(nodes, leaf), rs[1..], i - 1); }
    } else {
      AddsPlace(nodes, rs[1..], i);
    }
  }

  // ---------------------------------------------------------------- a member's own leaf

  predicate NoRemove(rs: seq<Resolved>, m: nat) {
    forall r | r in rs :: r.proposal.Remove? ==> r.proposal.removed != m
  }

  predicate NoUpdateBy(rs: seq<Resolved>, m: nat) {
    forall r | r in rs :: !(r.proposal.Update? && r.sender == m)
  }

  /** At most one Update per sender. */
  predicate OneUpdateEach(rs: seq<Resolved>) {
    forall i, h :: 0 <= i < h < |rs| && rs[i].proposal.Update? && rs[h].proposal.Update? ==>
      rs[i].sender != rs[h].sender
  }

  lemma {:induction false} UpdatesSpare(nodes: Nodes, rs: seq<Resolved>, m: nat)
    requires At(nodes, 0, m).LeafSlot? && NoUpdateBy(rs, m) && ApplyUpdates(nodes, rs).Some?
    ensures StillAt(nodes, ApplyUpdates(nodes, rs).value, m)
    decreases |rs|
  {
    if rs != [] {
      assert rs[0] in rs;
      if rs[0].proposal.Update? {
        var L, leaf := rs[0].sender, rs[0].proposal.leaf;
        UpdatedView(nodes, L, leaf);
        OtherLeaf(nodes, UpdatedLeaf(nodes, L, leaf), L, m);
        UpdatesSpare(UpdatedLeaf(nodes, L, leaf), rs[1..], m);
      } else {
        UpdatesSpare(nodes, rs[1..], m);
      }
    }
  }

  lemma {:induction false} RemovesSpare(nodes: Nodes, rs: seq<Resolved>, m: nat)
    requires Complete(nodes) && At(nodes, 0, m).LeafSlot? && NoRemove(rs, m) && ApplyRemoves(nodes, rs).Some?
    ensures StillAt(nodes, ApplyRemoves(nodes, rs).value, m)
    decreases |rs|
  {
    if rs != [] {
      assert rs[0] in rs;
      if rs[0].proposal.Remove? {
        var L := rs[0].proposal.removed;
        RemovedView(nodes, L);
        RefitComplete(BlankPath(nodes, L)[2 * L := Blank]);
        OtherLeaf(nodes, RemovedLeaf(nodes, L), L, m);
        RemovesSpare(RemovedLeaf(nodes, L), rs[1..], m);
      } else {
        RemovesSpare(nodes, rs[1..], m);
      }
    }
  }

  /** The key a member decrypts with while processing. */
  function WorkingKeys(own: OwnKey, m: nat, priv: map<nat, PrivateKey>): map<nat, PrivateKey> {
    if own.NewKey? then map[2 * m := own.key] else priv
  }

  /** After the updates, the member's working key is the key of its leaf. */
  lemma {:induction false} UpdatesMember(nodes: Nodes, rs: seq<Resolved>, m: nat, priv: map<nat, PrivateKey>,
                                         pending: map<PublicKey, PrivateKey>)
    requires HoldsLeafKey(nodes, m, priv) && PendingOk(pending) && OneUpdateEach(rs)
    requires ApplyUpdates(nodes, rs).Some?
    requires !OwnUpdate(rs, m, pending).MissingKey?
    ensures HoldsLeafKey(ApplyUpdates(nodes, rs).value, m, WorkingKeys(OwnUpdate(rs, m, pending), m, priv))
    decreases |rs|
  {
    if rs != [] {
      if rs[0].proposal.Update? {
        var L, leaf := rs[0].sender, rs[0].proposal.leaf;
        var b := UpdatedLeaf(nodes, L, leaf);
        UpdatedView(nodes, L, leaf);
        if L == m {
          forall r | r in rs[1..] ensures !(r.proposal.Update? && r.sender == m) {
            var i :| 0 <= i < |rs[1..]| && rs[1..][i] == r;
            assert rs[i + 1] == r;
          }
          UpdatesSpare(b, rs[1..], m);
        } else {
          OtherLeaf(nodes, b, L, m);
          UpdatesMember(b, rs[1..], m, priv, pending);
        }
      } else {
        UpdatesMember(nodes, rs[1..], m, priv, pending);
      }
    }
  }

  lemma ProposalsMember(nodes: Nodes, rs: seq<Resolved>, m: nat, priv: map<nat, PrivateKey>,
                        pending: map<PublicKey, PrivateKey>)
    requires Complete(nodes) && HoldsLeafKey(nodes, m, priv) && PendingOk(pending)
    requires OneUpdateEach(rs) && NoRemove(rs, m)
    requires ApplyProposals(nodes, rs).Some?
    requires !OwnUpdate(rs, m, pending).MissingKey?
    ensures
      var adds := ApplyProposals(nodes, rs).value;
      m !in adds.leaves && HoldsLeafKey(adds.nodes, m, WorkingKeys(OwnUpdate(rs, m, pending), m, priv))
  {
    UpdatesMember(nodes, rs, m, priv, pending);
    var updated := ApplyUpdates(nodes, rs).value;
    RemovesSpare(updated, rs, m);
    AddsSpare(ApplyRemoves(updated, rs).value, rs, m);
  }

  // ---------------------------------------------------------------- the committer's side

  /** Everything the next path needs to be new: its node keys and its leaf key. */
  ghost predicate FreshPath(nodes: Nodes, c: nat, leafSecret: Term) {
    && FreshKeys(nodes, PathKeys(leafSecret, Rank(nodes, c, Height(nodes))))
    && (forall M: nat :: M != c && At(nodes, 0, M).LeafSlot? ==>
         At(nodes, 0, M).leaf.body.key != PublicKey(NodeSeed(leafSecret)))
  }

  lemma InRange(nodes: Nodes, L: nat)
    requires !At(nodes, 0, L).Blank?
    ensures 2 * L < |nodes|
  {
    assert Index(0, L) == 2 * L;
  }

  lemma PathKeepsTree(nodes: Nodes, c: nat, leafSecret: Term, signer: nat, groupId: nat)
    requires TreeOk(nodes, c, groupId) && LeafWith(nodes, c, signer) && FreshPath(nodes, c, leafSecret)
    ensures
      var b := PathTree(nodes, c, leafSecret, signer, groupId);
      TreeOk(b, c, groupId) && LeafWith(b, c, signer) && SameOff(nodes, b, c) && Complete(b)
  {
    var pubs := PathKeys(leafSecret, Rank(nodes, c, Height(nodes)));
    var leaf := CommitLeaf(nodes, c, leafSecret, signer, groupId);
    var b := PathTree(nodes, c, leafSecret, signer, groupId);
    InRange(nodes, c);
    MergedOk(nodes, c, pubs, leaf);
    ParentsPlaced(nodes);
    MergedHashesOk(nodes, c, pubs, leaf);
    MergedView(nodes, c, pubs, leaf);
    WriterKept(nodes, b, c, c);
    CommitLeafOk(nodes, c, leafSecret, signer, groupId);
    LeavesKept(nodes, b, c, groupId);
  }

  lemma CommitLeafOk(nodes: Nodes, c: nat, leafSecret: Term, signer: nat, groupId: nat)
    requires VerifyLeaves(nodes, groupId) && LeafWith(nodes, c, signer) && FreshPath(nodes, c, leafSecret)
    ensures NewLeafOk(nodes, c, CommitLeaf(nodes, c, leafSecret, signer, groupId), groupId)
  {
    var leaf := CommitLeaf(nodes, c, leafSecret, signer, groupId);
    forall M: nat | M != c ensures !SameKeys(At(nodes, 0, M), LeafSlot(leaf)) {
      assert !SameKeys(At(nodes, 0, M), At(nodes, 0, c));
    }
  }

  /** The common ancestor of the committer and any other member carries a path secret. */
  lemma {:induction false} WelcomeSecretFound(nodes: Nodes, c: nat, a: nat, leafSecret: Term)
    requires WellFormed(nodes) && 2 * c < |nodes| && a != c && At(nodes, 0, a).LeafSlot?
    ensures CommonAncestor(a, c) in SecretsByNode(nodes, c, leafSecret)
    ensures SecretsByNode(nodes, c, leafSecret)[CommonAncestor(a, c)] ==
            PathSecret(leafSecret, Rank(nodes, c, Meet(c, a)))
  {
    var k := Meet(c, a);
    MeetUnique(a, c, k);
    MeetFiltered(nodes, c, a);
    SecretAt(nodes, c, k, leafSecret);
  }

  /** Where the paths of two members meet is on the filtered direct path of either. */
  lemma {:induction false} MeetFiltered(nodes: Nodes, c: nat, a: nat)
    requires WellFormed(nodes) && 2 * c < |nodes| && a != c && At(nodes, 0, a).LeafSlot?
    ensures 0 < Meet(c, a) <= Height(nodes) && Filtered(nodes, c, Meet(c, a))
  {
    var k := Meet(c, a);
    InRange(nodes, a);
    MeetInTree(nodes, c, a);
    CopathHolds(c, a, k);
    assert HasLeaf(nodes, k - 1, Flip(Shr(c, k - 1)));
    CopathHasLeaf(nodes, c, k);
  }

  lemma {:induction false} EntriesExist(leaves: seq<nat>, packages: seq<KeyPackage>, c: nat, secrets: map<nat, Term>,
                                        info: SealedInfo, joiner: Term)
    requires |leaves| == |packages| && forall i :: 0 <= i < |leaves| ==> CommonAncestor(leaves[i], c) in secrets
    ensures
      var r := WelcomeEntries(leaves, packages, c, secrets, info, joiner);
      r.Some? && forall i :: 0 <= i < |leaves| ==>
        r.value[i] == WelcomeEntry(packages[i], packages[i].initKey, info, joiner,
          secrets[CommonAncestor(leaves[i], c)])
    decreases |leaves|
  {
    if leaves != [] { EntriesExist(leaves[1..], packages[1..], c, secrets, info, joiner); }
  }

  // ---------------------------------------------------------------- the member's side

  /** Away from the writer's path a resolution lists leaves only. */
  lemma {:induction false} LeafEntries(nodes: Nodes, c: nat, k: nat, j: nat, d: nat)
    requires Typed(nodes) && SingleWriter(nodes, c) && Shr(c, k) != j && d in Resolution(nodes, k, j)
    ensures Level(d) == 0
    decreases k
  {
    if k == 0 {
      IndexCoordinates(0, j);
    } else {
      assert At(nodes, k, j).Blank?;
      if d in Resolution(nodes, k - 1, 2 * j) { LeafEntries(nodes, c, k - 1, 2 * j, d); }
      else { LeafEntries(nodes, c, k - 1, 2 * j + 1, d); }
    }
  }

  lemma {:induction false} WithoutMembers(s: seq<nat>, ex: set<nat>)
    ensures forall x :: x in Without(s, ex) <==> x in s && x !in ex
  {
    if s != [] {
      WithoutMembers(s[1..], ex);
      assert s == [s[0]] + s[1..];
    }
  }

  /** The leaf key opens a ciphertext: it is a recipient at the meeting level, and every key held
      at a recipient is current. */
  lemma MemberCanOpen(nodes: Nodes, c: nat, m: nat, keys: map<nat, PrivateKey>, omitted: set<nat>)
    requires WellFormed(nodes) && SingleWriter(nodes, c) && 2 * c < |nodes| && m != c
    requires HoldsLeafKey(nodes, m, keys) && 2 * m !in omitted
    ensures KeysCurrent(nodes, c, keys, omitted) && Holds(nodes, c, keys, omitted, Meet(c, m))
  {
    CoveredExactlyOnce(nodes, c, m);
    var k, i := Meet(c, m), CoverPosition(nodes, c, m);
    var res := CopathResolution(nodes, c, k);
    LeafEntries(nodes, c, k - 1, Flip(Shr(c, k - 1)), res[i]);
    CoordinatesIndex(res[i]);
    assert res[i] == 2 * m;
    WithoutMembers(res, omitted);
    forall h: nat, d | 0 < h <= Height(nodes) && d in Recipients(nodes, c, h, omitted) && d in keys
      ensures keys[d].seed == SlotKey(SlotAt(nodes, d)).seed
    {
      WithoutMembers(CopathResolution(nodes, c, h), omitted);
      LeafEntries(nodes, c, h - 1, Flip(Shr(c, h - 1)), d);
      assert SlotAt(nodes, 2 * m) == At(nodes, 0, m);
    }
  }

  lemma OwnNotOmitted(leaves: seq<nat>, m: nat)
    requires m !in leaves
    ensures 2 * m !in OmittedEntries(leaves)
  {
  }

  lemma {:induction false} AncestorsAbove(pathSecret: Term, L: nat, k: nat, H: nat)
    requires k > 0
    ensures forall x :: x in AncestorKeys(pathSecret, L, k, H) ==> Level(x) > 0
    decreases H + 1 - k
  {
    if k <= H {
      AncestorsAbove(Derived(pathSecret, PathLabel), L, k + 1, H);
      IndexCoordinates(k, Shr(L, k));
    }
  }

  /** The rebuilt private state: the own leaf key plus keys of parent nodes. */
  lemma MemberKeysOk(nodes: Nodes, m: nat, key: PrivateKey, pathSecret: Term, c: nat, H: nat)
    requires m != c && At(nodes, 0, m).LeafSlot? && key.seed == At(nodes, 0, m).leaf.body.key.seed
    ensures HoldsLeafKey(nodes, m, MemberKeys(m, key, pathSecret, c, H))
  {
    AncestorsAbove(pathSecret, m, Meet(m, c), H);
    IndexCoordinates(0, m);
    assert Index(0, m) == 2 * m;
  }
}
