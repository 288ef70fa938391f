/** Committing, processing a commit and joining by Welcome, as functions of a member's state
    (mls/group/commit_gen.go, process.go, welcome_gen.go, join.go). */
module GroupOps {
  import opened TreeMath
  import opened Symbolic
  import opened Ratchet
  import opened PathInstall
  import opened TreeInvariant
  import opened Coverage
  import opened ParentHashes
  import opened TreeKem
  import opened KeySchedule

  datatype GroupState = GroupState(
    gc: GroupContext, nodes: Nodes, priv: map<nat, PrivateKey>, es: EpochSecrets, interim: Term, init: Term,
    ownLeaf: nat, signer: nat, pending: map<PublicKey, PrivateKey>)

  datatype CommitMsg = CommitMsg(content: CommitContent, tag: Term)

  // ---------------------------------------------------------------- proposals

  datatype Resolved = Resolved(proposal: Proposal, sender: nat)

  /** The framed proposal belongs to this epoch of this group and to a present member. */
  predicate Authentic(s: GroupState, r: ProposalRef) {
    r.groupId == s.gc.groupId && r.epoch == s.gc.epoch && At(s.nodes, 0, r.sender).LeafSlot?
  }

  function Resolve(proposals: seq<ProposalOrRef>, delivered: seq<ProposalRef>, committer: nat): Option<seq<Resolved>> {
    if proposals == [] then Some([])
    else
      match Resolve(proposals[1..], delivered, committer)
      case None => None
      case Some(rest) =>
        match proposals[0]
        case ByValue(p) => Some([Resolved(p, committer)] + rest)
        case ByReference(r) => if r in delivered then Some([Resolved(r.proposal, r.sender)] + rest) else None
  }

  function ApplyUpdates(nodes: Nodes, rs: seq<Resolved>): (r: Option<Nodes>)
    ensures r.Some? ==> |r.value| == |nodes|
    decreases |rs|
  {
    if rs == [] then Some(nodes)
    else if !rs[0].proposal.Update? then ApplyUpdates(nodes, rs[1..])
    else if 2 * rs[0].sender >= |nodes| then None
    else ApplyUpdates(UpdatedLeaf(nodes, rs[0].sender, rs[0].proposal.leaf), rs[1..])
  }

  function ApplyRemoves(nodes: Nodes, rs: seq<Resolved>): (r: Option<Nodes>)
    requires Complete(nodes)
    ensures r.Some? ==> Complete(r.value)
    decreases |rs|
  {
    if rs == [] then Some(nodes)
    else if !rs[0].proposal.Remove? then ApplyRemoves(nodes, rs[1..])
    else if 2 * rs[0].proposal.removed >= |nodes| then None
    else
      RefitComplete(BlankPath(nodes, rs[0].proposal.removed)[2 * rs[0].proposal.removed := Blank]);
      ApplyRemoves(RemovedLeaf(nodes, rs[0].proposal.removed), rs[1..])
  }

  datatype Additions = Additions(nodes: Nodes, leaves: seq<nat>, packages: seq<KeyPackage>)

  function ApplyAdds(nodes: Nodes, rs: seq<Resolved>): (r: Additions)
    requires Complete(nodes)
    ensures Complete(r.nodes) && |r.leaves| == |r.packages|
    decreases |rs|
  {
    if rs == [] then Additions(nodes, [], [])
    else if !rs[0].proposal.Add? then ApplyAdds(nodes, rs[1..])
    else
      AddedComplete(nodes, rs[0].proposal.keyPackage.leaf);
      var rest := ApplyAdds(AddedLeaf(nodes, rs[0].proposal.keyPackage.leaf), rs[1..]);
      Additions(rest.nodes, [AddSlot(nodes)] + rest.leaves, [rs[0].proposal.keyPackage] + rest.packages)
  }

  /** The last GroupContextExtensions proposal wins. */
  function ApplyExtensions(ext: nat, rs: seq<Resolved>): nat
    decreases |rs|
  {
    if rs == [] then ext
    else ApplyExtensions(if rs[0].proposal.GroupContextExtensions? then rs[0].proposal.extensions else ext, rs[1..])
  }

  /** applyProposals: updates, then removes, then adds */
  function ApplyProposals(nodes: Nodes, rs: seq<Resolved>): (r: Option<Additions>)
    requires Complete(nodes)
    ensures r.Some? ==> Complete(r.value.nodes) && |r.value.leaves| == |r.value.packages|
  {
    match ApplyUpdates(nodes, rs)
    case None => None
    case Some(updated) =>
      match ApplyRemoves(updated, rs)
      case None => None
      case Some(removed) => Some(ApplyAdds(removed, rs))
  }

  lemma RefitComplete(nodes: Nodes)
    requires |nodes| >= 1
    ensures Complete(Refit(nodes))
  {
    FullWidthLeast(0, |Trim(nodes, 1)|);
  }

  lemma AddedComplete(nodes: Nodes, leaf: LeafNode)
    requires Complete(nodes)
    ensures Complete(AddedLeaf(nodes, leaf))
  {
    if 2 * AddSlot(nodes) >= |nodes| {
      GrownWidth(nodes);
      Log2Width(Height(nodes) + 1);
    }
  }

  // ---------------------------------------------------------------- welcome

  datatype GroupInfo = GroupInfo(gc: GroupContext, tree: Nodes, tag: Term, signerLeaf: nat, signature: nat)

  /** GroupInfo sealed under the key and nonce derived from a welcome secret. */
  datatype SealedInfo = SealedInfo(key: Term, info: GroupInfo)

  /** GroupSecrets sealed to a key package's init key with the sealed GroupInfo as context. */
  datatype WelcomeEntry = WelcomeEntry(newMember: KeyPackage, to: PublicKey, context: SealedInfo, joiner: Term,
    pathSecret: Term)

  datatype Welcome = Welcome(entries: seq<WelcomeEntry>, info: SealedInfo)

  /** Array index of the lowest common ancestor of two leaves. */
  function CommonAncestor(a: nat, b: nat): nat {
    Index(Meet(a, b), Shr(a, Meet(a, b)))
  }

  /** One entry per added leaf, or None when a common ancestor has no path secret. */
  function WelcomeEntries(leaves: seq<nat>, packages: seq<KeyPackage>, committer: nat, secrets: map<nat, Term>,
                          info: SealedInfo, joiner: Term): (r: Option<seq<WelcomeEntry>>)
    requires |leaves| == |packages|
    ensures r.Some? ==> |r.value| == |packages| && forall i :: 0 <= i < |packages| ==>
            r.value[i].newMember == packages[i]
    decreases |leaves|
  {
    if leaves == [] then Some([])
    else
      var node := CommonAncestor(leaves[0], committer);
      match WelcomeEntries(leaves[1..], packages[1..], committer, secrets, info, joiner)
      case None => None
      case Some(rest) =>
        if node in secrets
        then Some([WelcomeEntry(packages[0], packages[0].initKey, info, joiner, secrets[node])] + rest)
        else None
  }

  // ---------------------------------------------------------------- commit

  function Refs(rs: seq<ProposalRef>): (r: seq<ProposalOrRef>)
    ensures |r| == |rs| && forall i :: 0 <= i < |rs| ==> r[i] == ByReference(rs[i])
  {
    seq(|rs|, i requires 0 <= i < |rs| => ByReference(rs[i]))
  }

  function Values(ps: seq<Proposal>): (r: seq<ProposalOrRef>)
    ensures |r| == |ps| && forall i :: 0 <= i < |ps| ==> r[i] == ByValue(ps[i])
  {
    seq(|ps|, i requires 0 <= i < |ps| => ByValue(ps[i]))
  }

  /** Provisional context of the next epoch; its transcript hash is filled in by the caller. */
  function NextContext(gc: GroupContext, treeHash: Term, confirmed: Term, extensions: nat): GroupContext {
    GroupContext(gc.groupId, gc.epoch + 1, treeHash, confirmed, extensions)
  }

  /** What a new epoch is made of, given its tree, extensions, commit secret and commit content. */
  datatype Advance = Advance(gc: GroupContext, es: EpochSecrets, tag: Term, interim: Term)

  function AdvanceEpoch(s: GroupState, nodes: Nodes, extensions: nat, commitSecret: Term,
                        content: CommitContent): Advance {
    var confirmed := ConfirmedHash(s.interim, content);
    var gc := NextContext(s.gc, RootHash(nodes), confirmed, extensions);
    var es := DeriveEpochSecrets(s.init, commitSecret, gc);
    var tag := ConfirmationTag(es, confirmed);
    Advance(gc, es, tag, InterimHash(confirmed, tag))
  }

  /** Own leaf key plus the keys of the given path secrets. */
  function CommitterKeys(ownLeaf: nat, leafSecret: Term, secrets: map<nat, Term>): map<nat, PrivateKey> {
    map x | x in {2 * ownLeaf} + secrets.Keys ::
      if x in secrets then PrivateKey(NodeSeed(secrets[x])) else PrivateKey(NodeSeed(leafSecret))
  }

  datatype Committed = Committed(state: GroupState, msg: CommitMsg, welcome: Option<Welcome>)

  function EncryptionBase(s: GroupState, extensions: nat): GroupContext {
    NextContext(s.gc, Empty, s.gc.confirmed, extensions)
  }

  function Commit(s: GroupState, byReference: seq<ProposalRef>, byValue: seq<Proposal>,
                  leafSecret: Term): Option<Committed> {
    var proposals := Refs(byReference) + Values(byValue);
    if exists r | r in byReference :: !Authentic(s, r) then None
    else
      match (Cloned(s.nodes), Resolve(proposals, byReference, s.ownLeaf))
      case (Some(tree), Some(rs)) => CommitTo(s, tree, proposals, rs, leafSecret)
      case _ => None
  }

  function CommitTo(s: GroupState, tree: Nodes, proposals: seq<ProposalOrRef>, rs: seq<Resolved>,
                    leafSecret: Term): Option<Committed> {
    if !Complete(tree) then None
    else
      match ApplyProposals(tree, rs)
      case None => None
      case Some(adds) =>
        var ext := ApplyExtensions(s.gc.extensions, rs);
        match Generate(adds.nodes, s.ownLeaf, leafSecret, s.signer, s.gc.groupId, OmittedEntries(adds.leaves),
          EncryptionBase(s, ext))
        case None => None
        case Some(g) => FinishCommit(s, adds, g, ext, proposals, leafSecret)
  }

  function FinishCommit(s: GroupState, adds: Additions, g: Generated, ext: nat, proposals: seq<ProposalOrRef>,
                        leafSecret: Term): Option<Committed>
    requires |adds.leaves| == |adds.packages|
  {
    var content := CommitContent(s.gc.groupId, s.gc.epoch, s.ownLeaf, proposals, Some(g.path));
    var a := AdvanceEpoch(s, g.nodes, ext, g.commitSecret, content);
    var state := GroupState(a.gc, g.nodes, CommitterKeys(s.ownLeaf, leafSecret, g.secrets), a.es, a.interim, a.es.init,
      s.ownLeaf, s.signer, map[]);
    var info := SealedInfo(a.es.welcome, GroupInfo(a.gc, Trim(g.nodes, 0), a.tag, s.ownLeaf, s.signer));
    if adds.leaves == [] then Some(Committed(state, CommitMsg(content, a.tag), None))
    else
      match WelcomeEntries(adds.leaves, adds.packages, s.ownLeaf, g.secrets, info, a.es.joiner)
      case None => None
      case Some(entries) => Some(Committed(state, CommitMsg(content, a.tag), Some(Welcome(entries, info))))
  }

  // ---------------------------------------------------------------- process

  datatype OwnKey = NoUpdate | MissingKey | NewKey(key: PrivateKey)

  /** resolveOwnUpdatePriv: the pending key of the first Update authored by ownLeaf */
  function OwnUpdate(rs: seq<Resolved>, ownLeaf: nat, pending: map<PublicKey, PrivateKey>): OwnKey {
    if rs == [] then NoUpdate
    else if rs[0].proposal.Update? && rs[0].sender == ownLeaf then
      var key := rs[0].proposal.leaf.body.key;
      if key in pending then NewKey(pending[key]) else MissingKey
    else OwnUpdate(rs[1..], ownLeaf, pending)
  }

  /** installJoinerPriv: keys from the common ancestor up, one ratchet step per tree level */
  function AncestorKeys(pathSecret: Term, L: nat, k: nat, H: nat): map<nat, PrivateKey>
    decreases H + 1 - k
  {
    if k > H then map[]
    else
      AncestorKeys(Derived(pathSecret, PathLabel), L, k + 1, H)
        [Index(k, Shr(L, k)) := PrivateKey(NodeSeed(pathSecret))]
  }

  function MemberKeys(ownLeaf: nat, ownKey: PrivateKey, pathSecret: Term, committer: nat,
                      H: nat): map<nat, PrivateKey> {
    map[2 * ownLeaf := ownKey] + AncestorKeys(pathSecret, ownLeaf, Meet(ownLeaf, committer), H)
  }

  function Keys(path: seq<PathNode>): (r: seq<PublicKey>)
    ensures |r| == |path| && forall i :: 0 <= i < |path| ==> r[i] == path[i].key
  {
    seq(|path|, i requires 0 <= i < |path| => path[i].key)
  }

  /** Outcome of the path part of ProcessCommit: the new tree, commit secret, and path secret if any. */
  datatype PathStep = PathStep(nodes: Nodes, commitSecret: Term, pathSecret: Option<Term>)

  function ProcessPath(s: GroupState, adds: Additions, ext: nat, committer: nat, path: Option<UpdatePath>,
                       keys: map<nat, PrivateKey>): Option<PathStep> {
    match path
    case None => Some(PathStep(adds.nodes, Zeros, None))
    case Some(up) =>
      if 2 * committer >= |adds.nodes| || |up.nodes| != Rank(adds.nodes, committer, Height(adds.nodes)) then None
      else
        var after := Merged(adds.nodes, committer, Keys(up.nodes), up.leaf);
        var gc := EncryptionBase(s, ext).(treeHash := RootHash(after));
        match Process(adds.nodes, committer, up.nodes, keys, gc, OmittedEntries(adds.leaves))
        case PathError => None
        case NoSecret => Some(PathStep(after, Zeros, None))
        case Opened(secret, commitSecret) => Some(PathStep(after, commitSecret, Some(secret)))
  }

  function ProcessCommit(s: GroupState, delivered: seq<ProposalRef>, msg: CommitMsg): Option<GroupState> {
    var content := msg.content;
    if exists r | r in delivered :: !Authentic(s, r) then None
    else if !At(s.nodes, 0, content.sender).LeafSlot? || content.groupId != s.gc.groupId ||
      content.epoch != s.gc.epoch then None
    else
      match (Cloned(s.nodes), Resolve(content.proposals, delivered, content.sender))
      case (Some(tree), Some(rs)) => ProcessOn(s, tree, rs, msg)
      case _ => None
  }

  function ProcessOn(s: GroupState, tree: Nodes, rs: seq<Resolved>, msg: CommitMsg): Option<GroupState> {
    if !Complete(tree) then None
    else
      var own := OwnUpdate(rs, s.ownLeaf, s.pending);
      match ApplyProposals(tree, rs)
      case None => None
      case Some(adds) =>
        if own.MissingKey? then None
        else
          var keys := if own.NewKey? then map[2 * s.ownLeaf := own.key] else s.priv;
          ProcessWith(s, adds, ApplyExtensions(s.gc.extensions, rs), keys, msg)
  }

  function ProcessWith(s: GroupState, adds: Additions, ext: nat, keys: map<nat, PrivateKey>,
                       msg: CommitMsg): Option<GroupState> {
    match ProcessPath(s, adds, ext, msg.content.sender, msg.content.path, keys)
    case None => None
    case Some(p) => FinishProcess(s, p, ext, keys, msg)
  }

  function FinishProcess(s: GroupState, p: PathStep, ext: nat, keys: map<nat, PrivateKey>,
                         msg: CommitMsg): Option<GroupState> {
    var a := AdvanceEpoch(s, p.nodes, ext, p.commitSecret, msg.content);
    if a.tag != msg.tag then None
    else if p.pathSecret.Some? && 2 * s.ownLeaf !in keys then None
    else
      var priv := if p.pathSecret.Some?
        then MemberKeys(s.ownLeaf, keys[2 * s.ownLeaf], p.pathSecret.value, msg.content.sender, Height(p.nodes))
        else keys;
      Some(GroupState(a.gc, p.nodes, priv, a.es, a.interim, a.es.init, s.ownLeaf, s.signer, map[]))
  }

  // ---------------------------------------------------------------- join

  /** ParseRatchetTree on the decoded vector of optional nodes. */
  function Parsed(wire: Nodes): Option<Nodes> {
    if wire == [] || wire[|wire| - 1].Blank? then None else Some(Pad(wire, FullWidth(|wire|)))
  }

  /** VerifyParentHashes, slot by slot. */
  predicate VerifyParentHashes(nodes: Nodes) {
    forall i | 0 <= i < |nodes| && nodes[i].ParentSlot? ::
      Level(i) > 0 && HashOk(nodes, nodes[i].parent, Level(i) - 1, Position(i))
  }

  predicate SameKeys(a: Slot, b: Slot) {
    a.LeafSlot? && b.LeafSlot? && (a.leaf.body.sigKey == b.leaf.body.sigKey || a.leaf.body.key == b.leaf.body.key)
  }

  /** VerifyLeafSignatures: valid signatures, no signature or encryption key twice. */
  ghost predicate VerifyLeaves(nodes: Nodes, groupId: nat) {
    && (forall L: nat :: At(nodes, 0, L).LeafSlot? ==> VerifyLeaf(At(nodes, 0, L).leaf, groupId, L))
    && (forall L: nat, M: nat :: SameKeys(At(nodes, 0, L), At(nodes, 0, M)) ==> L == M)
  }

  /** FindLeafByEncryptionKey from leaf L on. */
  function FindLeaf(nodes: Nodes, key: PublicKey, L: nat): (r: Option<nat>)
    ensures r.Some? ==> At(nodes, 0, r.value).LeafSlot? && At(nodes, 0, r.value).leaf.body.key == key
    ensures r.None? ==> forall M: nat :: M >= L && At(nodes, 0, M).LeafSlot? ==> At(nodes, 0, M).leaf.body.key != key
    decreases |nodes| - 2 * L
  {
    if 2 * L >= |nodes| then None
    else if nodes[2 * L].LeafSlot? && nodes[2 * L].leaf.body.key == key then Some(L)
    else FindLeaf(nodes, key, L + 1)
  }

  function FindEntry(entries: seq<WelcomeEntry>, kp: KeyPackage): (r: Option<WelcomeEntry>)
    ensures r.Some? ==> r.value in entries && r.value.newMember == kp
    ensures r.None? ==> forall e :: e in entries ==> e.newMember != kp
  {
    if entries == [] then None
    else if entries[0].newMember == kp then Some(entries[0])
    else FindEntry(entries[1..], kp)
  }

  ghost function Join(w: Welcome, kp: KeyPackage, initPriv: PrivateKey, leafPriv: PrivateKey,
                      signer: nat): Option<GroupState> {
    match FindEntry(w.entries, kp)
    case None => None
    case Some(e) =>
      if e.to.seed != initPriv.seed || e.context != w.info then None
      else if w.info.key != WelcomeSecret(e.joiner) then None
      else
        match Parsed(w.info.info.tree)
        case None => None
        case Some(nodes) => JoinWith(w.info.info, nodes, e.joiner, e.pathSecret, kp, leafPriv, signer)
  }

  ghost function JoinWith(info: GroupInfo, nodes: Nodes, joiner: Term, pathSecret: Term, kp: KeyPackage,
                          leafPriv: PrivateKey, signer: nat): Option<GroupState> {
    if !VerifyParentHashes(nodes) || !VerifyLeaves(nodes, info.gc.groupId) then None
    else if RootHash(nodes) != info.gc.treeHash then None
    else if !At(nodes, 0, info.signerLeaf).LeafSlot? ||
      At(nodes, 0, info.signerLeaf).leaf.body.sigKey != info.signature then None
    else
      match FindLeaf(nodes, kp.leaf.body.key, 0)
      case None => None
      case Some(own) =>
        var priv := MemberKeys(own, leafPriv, pathSecret, info.signerLeaf, Height(nodes));
        var es := EpochSecretsFromJoiner(joiner, info.gc);
        if ConfirmationTag(es, info.gc.confirmed) != info.tag then None
        else
          Some(GroupState(info.gc, nodes, priv, es, InterimHash(info.gc.confirmed, info.tag), es.init, own, signer,
            map[]))
  }

  // ---------------------------------------------------------------- propose

  datatype Proposing = Proposing(state: GroupState, proposal: Proposal)

  /** ProposeUpdate: a fresh leaf key, kept pending until a commit applies the update */
  function ProposeUpdate(s: GroupState, seed: Term): Option<Proposing> {
    var slot := At(s.nodes, 0, s.ownLeaf);
    if !slot.LeafSlot? then None
    else
      var body := slot.leaf.body.(key := PublicKey(seed), source := UpdateSource);
      Some(Proposing(
        s.(pending := s.pending[PublicKey(seed) := PrivateKey(seed)]),
        Update(SignLeaf(s.signer, body, s.gc.groupId, s.ownLeaf))))
  }

  function Framed(s: GroupState, p: Proposal): ProposalRef {
    ProposalRef(s.gc.groupId, s.gc.epoch, s.ownLeaf, p)
  }

  // ---------------------------------------------------------------- create

  function NewGroup(groupId: nat, leafSeed: Term, sigKey: nat, credential: nat, lifetime: nat): GroupState {
    var leaf := SignLeaf(sigKey, LeafBody(PublicKey(leafSeed), sigKey, credential, KeyPackageSource(lifetime)), 0, 0);
    var nodes := [LeafSlot(leaf)];
    var gc := GroupContext(groupId, 0, RootHash(nodes), Empty, 0);
    var es := DeriveEpochSecrets(Zeros, Zeros, gc);
    GroupState(gc, nodes, map[0 := PrivateKey(leafSeed)], es, Empty, es.init, 0, sigKey, map[])
  }
}
