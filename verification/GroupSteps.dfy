/** Commit, process and join agree: the step theorems behind every run. */
module GroupSteps {
  import opened TreeMath
  import opened Symbolic
  import opened Ratchet
  import opened PathInstall
  import opened TreeInvariant
  import opened Coverage
  import opened ParentHashes
  import opened TreeKem
  import opened KeySchedule
  import opened GroupOps
  import opened GroupAgreement

  // ---------------------------------------------------------------- resolving proposals

  function Expected(proposals: seq<ProposalOrRef>, committer: nat): seq<Resolved> {
    if proposals == [] then []
    else
      [match proposals[0]
       case ByValue(p) => Resolved(p, committer)
       case ByReference(r) => Resolved(r.proposal, r.sender)] + Expected(proposals[1..], committer)
  }

  predicate AllDelivered(proposals: seq<ProposalOrRef>, delivered: seq<ProposalRef>) {
    forall p | p in proposals :: p.ByReference? ==> p.reference in delivered
  }

  lemma {:induction false} ResolveExpected(proposals: seq<ProposalOrRef>, delivered: seq<ProposalRef>, committer: nat)
    requires AllDelivered(proposals, delivered)
    ensures Resolve(proposals, delivered, committer) == Some(Expected(proposals, committer))
  {
    if proposals != [] {
      assert proposals[0] in proposals;
      ResolveExpected(proposals[1..], delivered, committer);
    }
  }

  function Proposed(byReference: seq<ProposalRef>, byValue: seq<Proposal>): seq<ProposalOrRef> {
    Refs(byReference) + Values(byValue)
  }

  lemma OwnDelivered(byReference: seq<ProposalRef>, byValue: seq<Proposal>, delivered: seq<ProposalRef>)
    requires forall r :: r in byReference ==> r in delivered
    ensures AllDelivered(Proposed(byReference, byValue), delivered)
  {
    forall p | p in Proposed(byReference, byValue) ensures p.ByReference? ==> p.reference in delivered {
      var i :| 0 <= i < |Proposed(byReference, byValue)| && Proposed(byReference, byValue)[i] == p;
      if i < |byReference| { assert p == ByReference(byReference[i]) && byReference[i] in byReference; }
    }
  }

  // ---------------------------------------------------------------- the commit in parts

  /** The working tree after the proposals, with the added leaves. */
  function Working(s: GroupState, rs: seq<Resolved>): Option<Additions> {
    if Complete(s.nodes) then ApplyProposals(s.nodes, rs) else None
  }

  function NextExtensions(s: GroupState, rs: seq<Resolved>): nat {
    ApplyExtensions(s.gc.extensions, rs)
  }

  /** The path generated on the working tree. */
  function PathOf(s: GroupState, adds: Additions, rs: seq<Resolved>, leafSecret: Term): Option<Generated> {
    Generate(adds.nodes, s.ownLeaf, leafSecret, s.signer, s.gc.groupId, OmittedEntries(adds.leaves),
      EncryptionBase(s, NextExtensions(s, rs)))
  }

  lemma LiveTree(nodes: Nodes, c: nat)
    requires WellFormed(nodes) && At(nodes, 0, c).LeafSlot?
    ensures Cloned(nodes) == Some(nodes) && Complete(nodes)
  {
    CloneIsIdentity(nodes);
    assert HasMember(nodes);
  }

  lemma CommitInParts(s: GroupState, byReference: seq<ProposalRef>, byValue: seq<Proposal>, leafSecret: Term)
    requires WellFormed(s.nodes) && At(s.nodes, 0, s.ownLeaf).LeafSlot?
    ensures
      var proposals := Proposed(byReference, byValue);
      var rs := Expected(proposals, s.ownLeaf);
      Commit(s, byReference, byValue, leafSecret) ==
        if exists r | r in byReference :: !Authentic(s, r) then None
        else CommitTo(s, s.nodes, proposals, rs, leafSecret)
  {
    LiveTree(s.nodes, s.ownLeaf);
    OwnDelivered(byReference, byValue, byReference);
    ResolveExpected(Proposed(byReference, byValue), byReference, s.ownLeaf);
  }

  // ---------------------------------------------------------------- committing

  /** The committer's inputs: proposals of this epoch, at most one Update per sender, honest in
      order, and a fresh leaf secret. */
  ghost predicate HonestCommit(s: GroupState, byReference: seq<ProposalRef>, byValue: seq<Proposal>, leafSecret: Term) {
    var rs := Expected(Proposed(byReference, byValue), s.ownLeaf);
    && (forall r :: r in byReference ==> Authentic(s, r))
    && OneUpdateEach(rs)
    && Complete(s.nodes) && HonestProposals(s.nodes, rs, s.ownLeaf, s.signer, s.gc.groupId)
    && ApplyProposals(s.nodes, rs).Some?
    && FreshPath(ApplyProposals(s.nodes, rs).value.nodes, s.ownLeaf, leafSecret)
  }

  lemma ProposalsKeep(s: GroupState, rs: seq<Resolved>)
    requires CommitterOk(s) && HonestProposals(s.nodes, rs, s.ownLeaf, s.signer, s.gc.groupId)
    ensures ApplyProposals(s.nodes, rs).Some?
    ensures
      var adds := ApplyProposals(s.nodes, rs).value;
      && TreeOk(adds.nodes, s.ownLeaf, s.gc.groupId) && LeafWith(adds.nodes, s.ownLeaf, s.signer)
      && s.ownLeaf !in adds.leaves
      && forall i :: 0 <= i < |adds.leaves| ==> At(adds.nodes, 0, adds.leaves[i]) == LeafSlot(adds.packages[i].leaf)
  {
    var c, g := s.ownLeaf, s.gc.groupId;
    UpdatesKeep(s.nodes, rs, c, s.signer, g);
    var updated := ApplyUpdates(s.nodes, rs).value;
    RemovesKeep(updated, rs, c, s.signer, g);
    var removed := ApplyRemoves(updated, rs).value;
    AddsKeep(removed, rs, c, g);
    AddsSpare(removed, rs, c);
    forall i | 0 <= i < |ApplyAdds(removed, rs).leaves|
      ensures At(ApplyAdds(removed, rs).nodes, 0, ApplyAdds(removed, rs).leaves[i]) ==
              LeafSlot(ApplyAdds(removed, rs).packages[i].leaf)
    {
      AddsPlace(removed, rs, i);
    }
  }

  /** The finished commit has the parts it was built from. */
  lemma CommitParts(s: GroupState, byReference: seq<ProposalRef>, byValue: seq<Proposal>, leafSecret: Term)
    requires WellFormed(s.nodes) && At(s.nodes, 0, s.ownLeaf).LeafSlot?
    requires Commit(s, byReference, byValue, leafSecret).Some?
    ensures
      var proposals := Proposed(byReference, byValue);
      var rs := Expected(proposals, s.ownLeaf);
      var r := Commit(s, byReference, byValue, leafSecret).value;
      && Working(s, rs).Some? && At(Working(s, rs).value.nodes, 0, s.ownLeaf).LeafSlot?
      && PathOf(s, Working(s, rs).value, rs, leafSecret).Some?
      && var g := PathOf(s, Working(s, rs).value, rs, leafSecret).value;
         var content := CommitContent(s.gc.groupId, s.gc.epoch, s.ownLeaf, proposals, Some(g.path));
         var a := AdvanceEpoch(s, g.nodes, NextExtensions(s, rs), g.commitSecret, content);
         && r.msg == CommitMsg(content, a.tag)
         && r.state == GroupState(a.gc, g.nodes, CommitterKeys(s.ownLeaf, leafSecret, g.secrets), a.es, a.interim,
              a.es.init, s.ownLeaf, s.signer, map[])
         && (r.welcome.Some? ==>
               r.welcome.value.info ==
               SealedInfo(a.es.welcome, GroupInfo(a.gc, Trim(g.nodes, 0), a.tag, s.ownLeaf, s.signer)))
  {
    CommitInParts(s, byReference, byValue, leafSecret);
  }

  /** An honest commit succeeds, never misses a Welcome secret, and keeps the committer sound. */
  lemma CommitSucceeds(s: GroupState, byReference: seq<ProposalRef>, byValue: seq<Proposal>, leafSecret: Term)
    requires CommitterOk(s) && HonestCommit(s, byReference, byValue, leafSecret)
    ensures Commit(s, byReference, byValue, leafSecret).Some?
    ensures
      var r := Commit(s, byReference, byValue, leafSecret).value;
      && CommitterOk(r.state) && r.state.ownLeaf == s.ownLeaf
      && r.state.gc.epoch == s.gc.epoch + 1 && r.state.gc.groupId == s.gc.groupId
  {
    var proposals := Proposed(byReference, byValue);
    var rs := Expected(proposals, s.ownLeaf);
    CommitInParts(s, byReference, byValue, leafSecret);
    ProposalsKeep(s, rs);
    var adds := ApplyProposals(s.nodes, rs).value;
    PathKeepsTree(adds.nodes, s.ownLeaf, leafSecret, s.signer, s.gc.groupId);
    InRange(adds.nodes, s.ownLeaf);
    forall i | 0 <= i < |adds.leaves|
      ensures CommonAncestor(adds.leaves[i], s.ownLeaf) in SecretsByNode(adds.nodes, s.ownLeaf, leafSecret)
    {
      assert adds.leaves[i] in adds.leaves;
      WelcomeSecretFound(adds.nodes, s.ownLeaf, adds.leaves[i], leafSecret);
    }
    WelcomeBuilt(s, adds, PathOf(s, adds, rs, leafSecret).value, NextExtensions(s, rs), proposals, leafSecret);
  }

  lemma WelcomeBuilt(s: GroupState, adds: Additions, g: Generated, ext: nat, proposals: seq<ProposalOrRef>,
                     leafSecret: Term)
    requires |adds.leaves| == |adds.packages|
    requires forall i :: 0 <= i < |adds.leaves| ==> CommonAncestor(adds.leaves[i], s.ownLeaf) in g.secrets
    ensures FinishCommit(s, adds, g, ext, proposals, leafSecret).Some?
    ensures
      var r := FinishCommit(s, adds, g, ext, proposals, leafSecret).value;
      (adds.leaves != [] ==> r.welcome.Some? && |r.welcome.value.entries| == |adds.leaves|) &&
      forall i :: 0 <= i < |adds.leaves| ==>
        r.welcome.value.entries[i] ==
          WelcomeEntry(adds.packages[i], adds.packages[i].initKey, r.welcome.value.info, r.state.es.joiner,
            g.secrets[CommonAncestor(adds.leaves[i], s.ownLeaf)])
  {
    var content := CommitContent(s.gc.groupId, s.gc.epoch, s.ownLeaf, proposals, Some(g.path));
    var a := AdvanceEpoch(s, g.nodes, ext, g.commitSecret, content);
    var info := SealedInfo(a.es.welcome, GroupInfo(a.gc, Trim(g.nodes, 0), a.tag, s.ownLeaf, s.signer));
    EntriesExist(adds.leaves, adds.packages, s.ownLeaf, g.secrets, info, a.es.joiner);
  }

  // ---------------------------------------------------------------- processing

  lemma {:induction false} KeysOfPath(nodes: Nodes, c: nat, leafSecret: Term, omitted: set<nat>, gc: GroupContext,
                                      path: seq<PathNode>)
    requires IsPath(nodes, c, leafSecret, omitted, gc, path)
    ensures Keys(path) == PathKeys(leafSecret, Rank(nodes, c, Height(nodes)))
  {
    var n := Rank(nodes, c, Height(nodes));
    assert |path| == n;
    forall i | 0 <= i < n ensures Keys(path)[i] == PathKeys(leafSecret, n)[i] {
      LevelRank(nodes, c, Height(nodes), i);
      assert path[i] == PathNodeAt(nodes, c, leafSecret, omitted, gc, PathLevels(nodes, c)[i]);
    }
  }

  /** The receiver rebuilds the committer's tree and context, and opens the path with them. */
  lemma PathProcessed(s: GroupState, m: GroupState, adds: Additions, rs: seq<Resolved>, leafSecret: Term,
                      keys: map<nat, PrivateKey>)
    requires SameEpoch(m, s) && At(adds.nodes, 0, s.ownLeaf).LeafSlot?
    ensures
      var g := PathOf(s, adds, rs, leafSecret).value;
      var omitted := OmittedEntries(adds.leaves);
      var gc := EncryptionBase(s, NextExtensions(s, rs)).(treeHash := RootHash(g.nodes));
      && IsPath(adds.nodes, s.ownLeaf, leafSecret, omitted, gc, g.path.nodes)
      && ProcessPath(m, adds, NextExtensions(m, rs), s.ownLeaf, Some(g.path), keys) ==
         match Process(adds.nodes, s.ownLeaf, g.path.nodes, keys, gc, omitted)
         case PathError => None
         case NoSecret => Some(PathStep(g.nodes, Zeros, None))
         case Opened(secret, commitSecret) => Some(PathStep(g.nodes, commitSecret, Some(secret)))
  {
    var c, ext := s.ownLeaf, NextExtensions(s, rs);
    var omitted := OmittedEntries(adds.leaves);
    InRange(adds.nodes, c);
    GeneratedIsPath(adds.nodes, c, leafSecret, s.signer, s.gc.groupId, omitted, EncryptionBase(s, ext));
    var g := PathOf(s, adds, rs, leafSecret).value;
    KeysOfPath(adds.nodes, c, leafSecret, omitted, EncryptionBase(s, ext).(treeHash := RootHash(g.nodes)),
      g.path.nodes);
  }

  /** What a member of the same epoch does with the commit, once its inputs check out. */
  lemma ProcessInParts(s: GroupState, m: GroupState, byReference: seq<ProposalRef>, byValue: seq<Proposal>,
                       leafSecret: Term, delivered: seq<ProposalRef>)
    requires WellFormed(s.nodes) && At(s.nodes, 0, s.ownLeaf).LeafSlot? && SameEpoch(m, s)
    requires Commit(s, byReference, byValue, leafSecret).Some?
    requires forall r :: r in delivered ==> Authentic(m, r)
    requires forall r :: r in byReference ==> r in delivered
    ensures
      var r := Commit(s, byReference, byValue, leafSecret).value;
      var rs := Expected(Proposed(byReference, byValue), s.ownLeaf);
      ProcessCommit(m, delivered, r.msg) == ProcessOn(m, s.nodes, rs, r.msg)
  {
    CommitParts(s, byReference, byValue, leafSecret);
    LiveTree(s.nodes, s.ownLeaf);
    OwnDelivered(byReference, byValue, delivered);
    ResolveExpected(Proposed(byReference, byValue), delivered, s.ownLeaf);
  }

  /** What the receiver makes of each outcome of opening the path. */
  lemma FinishAgrees(s: GroupState, m: GroupState, g: Generated, ext: nat, keys: map<nat, PrivateKey>,
                     content: CommitContent, p: PathStep)
    requires SameEpoch(m, s) && content.sender == s.ownLeaf && p.nodes == g.nodes && g.commitSecret != Zeros
    requires 2 * m.ownLeaf in keys
    requires p.pathSecret.Some? <==> p.commitSecret == g.commitSecret
    requires p.pathSecret.None? ==> p.commitSecret == Zeros
    ensures
      var a := AdvanceEpoch(s, g.nodes, ext, g.commitSecret, content);
      FinishProcess(m, p, ext, keys, CommitMsg(content, a.tag)) ==
        if p.pathSecret.None? then None
        else Some(GroupState(a.gc, g.nodes,
          MemberKeys(m.ownLeaf, keys[2 * m.ownLeaf], p.pathSecret.value, s.ownLeaf, Height(g.nodes)),
                             a.es, a.interim, a.es.init, m.ownLeaf, m.signer, map[]))
  {
    var a := AdvanceEpoch(s, g.nodes, ext, g.commitSecret, content);
    TagBindsInputs(s.init, m.init, g.commitSecret, p.commitSecret, a.gc, a.gc, a.gc.confirmed);
  }

  /** m in the new epoch of the committer's state `next`, with private state rebuilt from a path
      secret; or the commit rejected. */
  ghost predicate Agrees(m: GroupState, keys: map<nat, PrivateKey>, next: GroupState, after: Option<GroupState>)
    requires 2 * m.ownLeaf in keys
  {
    after.Some? ==>
      && SameEpoch(after.value, next) && after.value.ownLeaf == m.ownLeaf && after.value.pending == map[]
      && exists secret :: after.value.priv ==
           MemberKeys(m.ownLeaf, keys[2 * m.ownLeaf], secret, next.ownLeaf, Height(next.nodes))
  }

  ghost predicate CanOpen(s: GroupState, adds: Additions, keys: map<nat, PrivateKey>) {
    exists k: nat :: Holds(adds.nodes, s.ownLeaf, keys, OmittedEntries(adds.leaves), k)
  }

  lemma RestAgrees(s: GroupState, m: GroupState, adds: Additions, rs: seq<Resolved>, leafSecret: Term,
                   keys: map<nat, PrivateKey>, content: CommitContent, next: GroupState)
    requires SameEpoch(m, s) && At(adds.nodes, 0, s.ownLeaf).LeafSlot? && 2 * m.ownLeaf in keys
    requires KeysCurrent(adds.nodes, s.ownLeaf, keys, OmittedEntries(adds.leaves))
    requires content.sender == s.ownLeaf && content.path == Some(PathOf(s, adds, rs, leafSecret).value.path)
    requires
      var g := PathOf(s, adds, rs, leafSecret).value;
      var a := AdvanceEpoch(s, g.nodes, NextExtensions(s, rs), g.commitSecret, content);
      next.ownLeaf == s.ownLeaf && next.gc == a.gc && next.nodes == g.nodes && next.es == a.es &&
        next.interim == a.interim && next.init == a.es.init
    ensures
      var g := PathOf(s, adds, rs, leafSecret).value;
      var a := AdvanceEpoch(s, g.nodes, NextExtensions(s, rs), g.commitSecret, content);
      var after := ProcessWith(m, adds, NextExtensions(m, rs), keys, CommitMsg(content, a.tag));
      (after.Some? <==> CanOpen(s, adds, keys)) && Agrees(m, keys, next, after)
  {
    PathProcessed(s, m, adds, rs, leafSecret, keys);
    var g, omitted := PathOf(s, adds, rs, leafSecret).value, OmittedEntries(adds.leaves);
    var gc := EncryptionBase(s, NextExtensions(s, rs)).(treeHash := RootHash(g.nodes));
    ProcessInvertsGenerate(adds.nodes, s.ownLeaf, leafSecret, omitted, gc, g.path.nodes, keys);
    match Process(adds.nodes, s.ownLeaf, g.path.nodes, keys, gc, omitted)
    case NoSecret =>
      FinishAgrees(s, m, g, NextExtensions(s, rs), keys, content, PathStep(g.nodes, Zeros, None));
    case Opened(secret, commitSecret) =>
      var k: nat :| HoldsFirst(adds.nodes, s.ownLeaf, keys, omitted, k);
      assert Holds(adds.nodes, s.ownLeaf, keys, omitted, k);
      FinishAgrees(s, m, g, NextExtensions(s, rs), keys, content, PathStep(g.nodes, commitSecret, Some(secret)));
  }

  /** Any member of the committer's epoch whose held keys are current reaches the new epoch
      iff it holds the key of some entry that got a ciphertext; otherwise it rejects the commit. */
  lemma ProcessAgreesIff(s: GroupState, m: GroupState, byReference: seq<ProposalRef>, byValue: seq<Proposal>,
                         leafSecret: Term, delivered: seq<ProposalRef>, keys: map<nat, PrivateKey>)
    requires WellFormed(s.nodes) && At(s.nodes, 0, s.ownLeaf).LeafSlot? && SameEpoch(m, s)
    requires Commit(s, byReference, byValue, leafSecret).Some?
    requires forall r :: r in delivered ==> Authentic(m, r)
    requires forall r :: r in byReference ==> r in delivered
    requires
      var rs := Expected(Proposed(byReference, byValue), s.ownLeaf);
      var own := OwnUpdate(rs, m.ownLeaf, m.pending);
      && !own.MissingKey? && keys == WorkingKeys(own, m.ownLeaf, m.priv) && 2 * m.ownLeaf in keys
      && Working(s, rs).Some?
      && KeysCurrent(Working(s, rs).value.nodes, s.ownLeaf, keys, OmittedEntries(Working(s, rs).value.leaves))
    ensures
      var adds := Working(s, Expected(Proposed(byReference, byValue), s.ownLeaf)).value;
      var r := Commit(s, byReference, byValue, leafSecret).value;
      var after := ProcessCommit(m, delivered, r.msg);
      (after.Some? <==> CanOpen(s, adds, keys)) && Agrees(m, keys, r.state, after)
  {
    var rs := Expected(Proposed(byReference, byValue), s.ownLeaf);
    CommitParts(s, byReference, byValue, leafSecret);
    ProcessInParts(s, m, byReference, byValue, leafSecret, delivered);
    var r := Commit(s, byReference, byValue, leafSecret).value;
    RestAgrees(s, m, Working(s, rs).value, rs, leafSecret, keys, r.msg.content, r.state);
  }

  /** Under a single committer every remaining member follows it into the new epoch. */
  lemma MemberFollows(s: GroupState, m: GroupState, byReference: seq<ProposalRef>, byValue: seq<Proposal>,
                      leafSecret: Term, delivered: seq<ProposalRef>)
    requires CommitterOk(s) && HonestCommit(s, byReference, byValue, leafSecret) && Follows(m, s)
    requires forall r :: r in delivered ==> Authentic(m, r)
    requires forall r :: r in byReference ==> r in delivered
    requires
      var rs := Expected(Proposed(byReference, byValue), s.ownLeaf);
      NoRemove(rs, m.ownLeaf) && !OwnUpdate(rs, m.ownLeaf, m.pending).MissingKey?
    ensures Commit(s, byReference, byValue, leafSecret).Some?
    ensures
      var r := Commit(s, byReference, byValue, leafSecret).value;
      var after := ProcessCommit(m, delivered, r.msg);
      after.Some? && Follows(after.value, r.state) && after.value.ownLeaf == m.ownLeaf && after.value.pending == map[]
  {
    CommitSucceeds(s, byReference, byValue, leafSecret);
    var rs := Expected(Proposed(byReference, byValue), s.ownLeaf);
    var own := OwnUpdate(rs, m.ownLeaf, m.pending);
    var keys := WorkingKeys(own, m.ownLeaf, m.priv);
    ProposalsKeep(s, rs);
    ProposalsMember(s.nodes, rs, m.ownLeaf, m.priv, m.pending);
    var adds := ApplyProposals(s.nodes, rs).value;
    OwnNotOmitted(adds.leaves, m.ownLeaf);
    InRange(adds.nodes, s.ownLeaf);
    MemberCanOpen(adds.nodes, s.ownLeaf, m.ownLeaf, keys, OmittedEntries(adds.leaves));
    assert CanOpen(s, adds, keys);
    ProcessAgreesIff(s, m, byReference, byValue, leafSecret, delivered, keys);
    PathKeepsTree(adds.nodes, s.ownLeaf, leafSecret, s.signer, s.gc.groupId);
    CommitParts(s, byReference, byValue, leafSecret);
    var r := Commit(s, byReference, byValue, leafSecret).value;
    OtherLeaf(adds.nodes, r.state.nodes, s.ownLeaf, m.ownLeaf);
    var after := ProcessCommit(m, delivered, r.msg).value;
    var secret :| after.priv == MemberKeys(m.ownLeaf, keys[2 * m.ownLeaf], secret, s.ownLeaf, Height(r.state.nodes));
    MemberKeysOk(r.state.nodes, m.ownLeaf, keys[2 * m.ownLeaf], secret, s.ownLeaf, Height(r.state.nodes));
  }

  // ---------------------------------------------------------------- joining

  lemma ParsedIsClone(nodes: Nodes, c: nat)
    requires WellFormed(nodes) && At(nodes, 0, c).LeafSlot?
    ensures Parsed(Trim(nodes, 0)) == Some(nodes)
  {
    LiveTree(nodes, c);
  }

  lemma HashesVerify(nodes: Nodes)
    requires Typed(nodes) && HashesOk(nodes)
    ensures VerifyParentHashes(nodes)
  {
    forall i | 0 <= i < |nodes| && nodes[i].ParentSlot?
      ensures Level(i) > 0 && HashOk(nodes, nodes[i].parent, Level(i) - 1, Position(i))
    {
      CoordinatesIndex(i);
      assert At(nodes, Level(i), Position(i)) == nodes[i];
    }
  }

  lemma LeafFound(nodes: Nodes, groupId: nat, L: nat)
    requires VerifyLeaves(nodes, groupId) && At(nodes, 0, L).LeafSlot?
    ensures FindLeaf(nodes, At(nodes, 0, L).leaf.body.key, 0) == Some(L)
  {
    var key := At(nodes, 0, L).leaf.body.key;
    var found := FindLeaf(nodes, key, 0);
    if found.Some? { assert SameKeys(At(nodes, 0, found.value), At(nodes, 0, L)); }
  }

  /** The epoch's secrets and transcript are what its context and joiner secret say. */
  predicate EpochShape(s: GroupState) {
    && s.gc.treeHash == RootHash(s.nodes)
    && s.es == EpochSecretsFromJoiner(s.es.joiner, s.gc) && s.init == s.es.init
    && s.interim == InterimHash(s.gc.confirmed, ConfirmationTag(s.es, s.gc.confirmed))
  }

  function InfoOf(s: GroupState): GroupInfo {
    GroupInfo(s.gc, Trim(s.nodes, 0), ConfirmationTag(s.es, s.gc.confirmed), s.ownLeaf, s.signer)
  }

  /** A joiner at leaf a ends up following the committer whose sound tree it received. */
  lemma JoinWithFollows(s: GroupState, a: nat, kp: KeyPackage, pathSecret: Term, leafPriv: PrivateKey, signer: nat)
    requires CommitterOk(s) && EpochShape(s) && a != s.ownLeaf
    requires At(s.nodes, 0, a) == LeafSlot(kp.leaf) && leafPriv.seed == kp.leaf.body.key.seed
    ensures
      var j := JoinWith(InfoOf(s), s.nodes, s.es.joiner, pathSecret, kp, leafPriv, signer);
      j.Some? && Follows(j.value, s) && j.value.ownLeaf == a && j.value.pending == map[]
  {
    HashesVerify(s.nodes);
    LeafFound(s.nodes, s.gc.groupId, a);
    MemberKeysOk(s.nodes, a, leafPriv, pathSecret, s.ownLeaf, Height(s.nodes));
  }

  predicate Distinct<T(==)>(s: seq<T>) {
    forall h, n :: 0 <= h < n < |s| ==> s[h] != s[n]
  }

  /** Distinct packages, so the entry found is the package's own. */
  lemma {:induction false} EntryFound(entries: seq<WelcomeEntry>, i: nat)
    requires i < |entries|
    requires forall h, n :: 0 <= h < n < |entries| ==> entries[h].newMember != entries[n].newMember
    ensures FindEntry(entries, entries[i].newMember) == Some(entries[i])
  {
    if i > 0 { EntryFound(entries[1..], i - 1); }
  }

  /** Each added package is at its leaf. */
  predicate AddsAtLeaves(adds: Additions) {
    && |adds.leaves| == |adds.packages|
    && forall i :: 0 <= i < |adds.leaves| ==> At(adds.nodes, 0, adds.leaves[i]) == LeafSlot(adds.packages[i].leaf)
  }

  lemma AddedPackagesDiffer(adds: Additions, groupId: nat)
    requires AddsAtLeaves(adds) && VerifyLeaves(adds.nodes, groupId) && Distinct(adds.leaves)
    ensures Distinct(adds.packages)
  {
    forall h, n | 0 <= h < n < |adds.packages| ensures adds.packages[h] != adds.packages[n] {
      if adds.packages[h] == adds.packages[n] {
        assert SameKeys(At(adds.nodes, 0, adds.leaves[h]), At(adds.nodes, 0, adds.leaves[n]));
      }
    }
  }

  lemma {:induction false} AddsDistinct(nodes: Nodes, rs: seq<Resolved>)
    requires Complete(nodes)
    ensures Distinct(ApplyAdds(nodes, rs).leaves)
    decreases |rs|
  {
    if rs != [] {
      if rs[0].proposal.Add? {
        var leaf := rs[0].proposal.keyPackage.leaf;
        AddedViews(nodes, leaf);
        AddedComplete(nodes, leaf);
        var rest := ApplyAdds(AddedLeaf(nodes, leaf), rs[1..]).leaves;
        AddsDistinct(AddedLeaf(nodes, leaf), rs[1..]);
        AddsSpare(AddedLeaf(nodes, leaf), rs[1..], AddSlot(nodes));
        DistinctCons(AddSlot(nodes), rest);
      } else {
        AddsDistinct(nodes, rs[1..]);
      }
    }
  }

  lemma DistinctCons(x: nat, s: seq<nat>)
    requires Distinct(s) && x !in s
    ensures Distinct([x] + s)
  {
  }

  /** The Welcome of an honest commit: one entry per added member, all different, each with the
      path secret of its common ancestor with the committer. */
  lemma WelcomeShape(s: GroupState, byReference: seq<ProposalRef>, byValue: seq<Proposal>, leafSecret: Term, i: nat)
    requires CommitterOk(s) && HonestCommit(s, byReference, byValue, leafSecret)
    requires i < |ApplyProposals(s.nodes, Expected(Proposed(byReference, byValue), s.ownLeaf)).value.packages|
    ensures Commit(s, byReference, byValue, leafSecret).Some?
    ensures
      var adds := ApplyProposals(s.nodes, Expected(Proposed(byReference, byValue), s.ownLeaf)).value;
      var r := Commit(s, byReference, byValue, leafSecret).value;
      && r.welcome.Some? && |r.welcome.value.entries| == |adds.packages|
      && (forall h :: 0 <= h < |adds.packages| ==> r.welcome.value.entries[h].newMember == adds.packages[h])
      && var e := r.welcome.value.entries[i];
         e == WelcomeEntry(adds.packages[i], adds.packages[i].initKey, r.welcome.value.info, r.state.es.joiner,
           e.pathSecret)
  {
    var proposals := Proposed(byReference, byValue);
    var rs := Expected(proposals, s.ownLeaf);
    HonestCommitFinishes(s, byReference, byValue, leafSecret);
    var adds := ApplyProposals(s.nodes, rs).value;
    WelcomeOf(s, adds, PathOf(s, adds, rs, leafSecret).value, NextExtensions(s, rs), proposals, leafSecret, i);
  }

  /** An honest commit reaches its last step with a path secret for every added leaf. */
  lemma HonestCommitFinishes(s: GroupState, byReference: seq<ProposalRef>, byValue: seq<Proposal>, leafSecret: Term)
    requires CommitterOk(s) && HonestCommit(s, byReference, byValue, leafSecret)
    ensures
      var proposals := Proposed(byReference, byValue);
      var rs := Expected(proposals, s.ownLeaf);
      var adds := ApplyProposals(s.nodes, rs).value;
      && PathOf(s, adds, rs, leafSecret).Some?
      && var g := PathOf(s, adds, rs, leafSecret).value;
      && (forall i :: 0 <= i < |adds.leaves| ==> CommonAncestor(adds.leaves[i], s.ownLeaf) in g.secrets)
      && Commit(s, byReference, byValue, leafSecret) ==
           FinishCommit(s, adds, g, NextExtensions(s, rs), proposals, leafSecret)
  {
    var rs := Expected(Proposed(byReference, byValue), s.ownLeaf);
    CommitInParts(s, byReference, byValue, leafSecret);
    ProposalsKeep(s, rs);
    var adds := ApplyProposals(s.nodes, rs).value;
    InRange(adds.nodes, s.ownLeaf);
    AddedSecrets(adds.nodes, s.ownLeaf, adds.leaves, leafSecret);
  }

  lemma WelcomeOf(s: GroupState, adds: Additions, g: Generated, ext: nat, proposals: seq<ProposalOrRef>,
                  leafSecret: Term, i: nat)
    requires |adds.leaves| == |adds.packages| && i < |adds.packages|
    requires forall h :: 0 <= h < |adds.leaves| ==> CommonAncestor(adds.leaves[h], s.ownLeaf) in g.secrets
    ensures FinishCommit(s, adds, g, ext, proposals, leafSecret).Some?
    ensures
      var r := FinishCommit(s, adds, g, ext, proposals, leafSecret).value;
      && r.welcome.Some? && |r.welcome.value.entries| == |adds.packages|
      && (forall h :: 0 <= h < |adds.packages| ==> r.welcome.value.entries[h].newMember == adds.packages[h])
      && var e := r.welcome.value.entries[i];
         e == WelcomeEntry(adds.packages[i], adds.packages[i].initKey, r.welcome.value.info, r.state.es.joiner,
           e.pathSecret)
  {
    WelcomeBuilt(s, adds, g, ext, proposals, leafSecret);
  }

  lemma AddedSecrets(nodes: Nodes, c: nat, leaves: seq<nat>, leafSecret: Term)
    requires WellFormed(nodes) && 2 * c < |nodes| && c !in leaves
    requires forall i :: 0 <= i < |leaves| ==> At(nodes, 0, leaves[i]).LeafSlot?
    ensures forall i :: 0 <= i < |leaves| ==> CommonAncestor(leaves[i], c) in SecretsByNode(nodes, c, leafSecret)
  {
    forall i | 0 <= i < |leaves| ensures CommonAncestor(leaves[i], c) in SecretsByNode(nodes, c, leafSecret) {
      assert leaves[i] in leaves;
      WelcomeSecretFound(nodes, c, leaves[i], leafSecret);
    }
  }

  lemma CommitShape(s: GroupState, byReference: seq<ProposalRef>, byValue: seq<Proposal>, leafSecret: Term)
    requires WellFormed(s.nodes) && At(s.nodes, 0, s.ownLeaf).LeafSlot?
    requires Commit(s, byReference, byValue, leafSecret).Some?
    ensures
      var r := Commit(s, byReference, byValue, leafSecret).value;
      EpochShape(r.state) && (r.welcome.Some? ==>
        r.welcome.value.info == SealedInfo(WelcomeSecret(r.state.es.joiner), InfoOf(r.state)))
  {
    CommitParts(s, byReference, byValue, leafSecret);
  }

  /** The added members of an honest commit sit in the committer's new tree. */
  lemma AddedInPlace(s: GroupState, byReference: seq<ProposalRef>, byValue: seq<Proposal>, leafSecret: Term, i: nat)
    requires CommitterOk(s) && HonestCommit(s, byReference, byValue, leafSecret)
    requires i < |ApplyProposals(s.nodes, Expected(Proposed(byReference, byValue), s.ownLeaf)).value.packages|
    ensures Commit(s, byReference, byValue, leafSecret).Some?
    ensures
      var adds := ApplyProposals(s.nodes, Expected(Proposed(byReference, byValue), s.ownLeaf)).value;
      var r := Commit(s, byReference, byValue, leafSecret).value;
      && Distinct(adds.packages) && adds.leaves[i] != s.ownLeaf
      && At(r.state.nodes, 0, adds.leaves[i]) == LeafSlot(adds.packages[i].leaf)
  {
    var rs := Expected(Proposed(byReference, byValue), s.ownLeaf);
    CommitSucceeds(s, byReference, byValue, leafSecret);
    CommitParts(s, byReference, byValue, leafSecret);
    ProposalsKeep(s, rs);
    var adds := ApplyProposals(s.nodes, rs).value;
    PathKeepsTree(adds.nodes, s.ownLeaf, leafSecret, s.signer, s.gc.groupId);
    AddsDistinct(ApplyRemoves(ApplyUpdates(s.nodes, rs).value, rs).value, rs);
    AddedPackagesDiffer(adds, s.gc.groupId);
    assert adds.leaves[i] in adds.leaves;
    OtherLeaf(adds.nodes, Commit(s, byReference, byValue, leafSecret).value.state.nodes, s.ownLeaf, adds.leaves[i]);
  }

  /** Every member added by an honest commit joins the committer's new epoch with its Welcome. */
  lemma JoinerFollows(s: GroupState, byReference: seq<ProposalRef>, byValue: seq<Proposal>, leafSecret: Term, i: nat,
                      initPriv: PrivateKey, leafPriv: PrivateKey, signer: nat)
    requires CommitterOk(s) && HonestCommit(s, byReference, byValue, leafSecret)
    requires
      var adds := ApplyProposals(s.nodes, Expected(Proposed(byReference, byValue), s.ownLeaf)).value;
      && i < |adds.packages|
      && initPriv.seed == adds.packages[i].initKey.seed && leafPriv.seed == adds.packages[i].leaf.body.key.seed
    ensures Commit(s, byReference, byValue, leafSecret).Some?
    ensures
      var adds := ApplyProposals(s.nodes, Expected(Proposed(byReference, byValue), s.ownLeaf)).value;
      var r := Commit(s, byReference, byValue, leafSecret).value;
      && r.welcome.Some?
      && var j := Join(r.welcome.value, adds.packages[i], initPriv, leafPriv, signer);
         j.Some? && Follows(j.value, r.state) && j.value.ownLeaf == adds.leaves[i] && j.value.pending == map[]
  {
    var adds := ApplyProposals(s.nodes, Expected(Proposed(byReference, byValue), s.ownLeaf)).value;
    CommitSucceeds(s, byReference, byValue, leafSecret);
    WelcomeShape(s, byReference, byValue, leafSecret, i);
    CommitShape(s, byReference, byValue, leafSecret);
    AddedInPlace(s, byReference, byValue, leafSecret, i);
    var r := Commit(s, byReference, byValue, leafSecret).value;
    JoinFollows(r.state, r.welcome.value, i, adds.leaves[i], adds.packages[i], initPriv, leafPriv, signer);
  }

  lemma JoinFollows(s: GroupState, w: Welcome, i: nat, a: nat, kp: KeyPackage, initPriv: PrivateKey,
                    leafPriv: PrivateKey, signer: nat)
    requires CommitterOk(s) && EpochShape(s) && a != s.ownLeaf && At(s.nodes, 0, a) == LeafSlot(kp.leaf)
    requires initPriv.seed == kp.initKey.seed && leafPriv.seed == kp.leaf.body.key.seed
    requires w.info == SealedInfo(WelcomeSecret(s.es.joiner), InfoOf(s))
    requires i < |w.entries|
    requires w.entries[i] == WelcomeEntry(kp, kp.initKey, w.info, s.es.joiner, w.entries[i].pathSecret)
    requires forall h, n :: 0 <= h < n < |w.entries| ==> w.entries[h].newMember != w.entries[n].newMember
    ensures
      var j := Join(w, kp, initPriv, leafPriv, signer);
      j.Some? && Follows(j.value, s) && j.value.ownLeaf == a && j.value.pending == map[]
  {
    EntryFound(w.entries, i);
    ParsedIsClone(s.nodes, s.ownLeaf);
    JoinWithFollows(s, a, kp, w.entries[i].pathSecret, leafPriv, signer);
  }
}
