/** Symbolic cryptography and the values exchanged by the group.

    Every hash, derivation, MAC, signature and encryption is a free constructor: two results are
    equal only if they were built from equal parts, and a ciphertext opens only under the private
    key whose public key it was sealed to and under the same context. */
module Symbolic {
  import opened TreeMath

  datatype Label =
    | PathLabel | NodeLabel | WelcomeLabel | JoinerLabel | EpochLabel
    | SenderDataLabel | EncryptionLabel | ExporterLabel | ExternalLabel | ConfirmLabel
    | MembershipLabel | ResumptionLabel | AuthenticationLabel | InitLabel

  /** Octet strings: random values, derived secrets, hashes and MACs. */
  datatype Term =
    | Random(id: nat)
    | Zeros
    | Empty
    | Derived(secret: Term, lbl: Label)
    | Extracted(salt: Term, ikm: Term)
    | Expanded(prk: Term, use: Label, context: GroupContext)
    | LeafHash(index: nat, leaf: Option<LeafNode>)
    | NodeHash(parent: Option<ParentNode>, left: Term, right: Term)
    | ParentHash(key: PublicKey, parentHash: Term, siblingHash: Term)
    | ConfirmedHash(interim: Term, content: CommitContent)
    | InterimHash(confirmed: Term, tag: Term)
    | Mac(macKey: Term, data: Term)

  /** An HPKE key pair is determined by its seed. */
  datatype PublicKey = PublicKey(seed: Term)
  datatype PrivateKey = PrivateKey(seed: Term)

  datatype Source =
    | KeyPackageSource(lifetime: nat)
    | UpdateSource
    | CommitSource(parentHash: Term)

  datatype LeafBody = LeafBody(key: PublicKey, sigKey: nat, credential: nat, source: Source)
  datatype Place = Place(groupId: nat, leaf: nat)
  datatype LeafSignature = LeafSignature(signer: nat, body: LeafBody, place: Option<Place>)
  datatype LeafNode = LeafNode(body: LeafBody, signature: LeafSignature)

  datatype ParentNode = ParentNode(key: PublicKey, parentHash: Term, unmerged: seq<nat>)

  datatype GroupContext = GroupContext(
    groupId: nat, epoch: nat, treeHash: Term, confirmed: Term, extensions: nat)

  /** EncryptWithLabel(to, "UpdatePathNode", context, secret) */
  datatype Ciphertext = Ciphertext(to: PublicKey, context: GroupContext, secret: Term)
  datatype PathNode = PathNode(key: PublicKey, secrets: seq<Ciphertext>)
  datatype UpdatePath = UpdatePath(leaf: LeafNode, nodes: seq<PathNode>)

  datatype KeyPackage = KeyPackage(initKey: PublicKey, leaf: LeafNode)

  datatype Proposal =
    | Add(keyPackage: KeyPackage)
    | Update(leaf: LeafNode)
    | Remove(removed: nat)
    | GroupContextExtensions(extensions: nat)

  /** RefHash over a framed proposal; being injective, it is the framed proposal itself. */
  datatype ProposalRef = ProposalRef(groupId: nat, epoch: nat, sender: nat, proposal: Proposal)
  datatype ProposalOrRef = ByValue(proposal: Proposal) | ByReference(reference: ProposalRef)

  /** wire_format || FramedContent || signature of a commit (everything before its tag). */
  datatype CommitContent = CommitContent(
    groupId: nat, epoch: nat, sender: nat, proposals: seq<ProposalOrRef>, path: Option<UpdatePath>)

  function Decrypt(key: PrivateKey, context: GroupContext, c: Ciphertext): Option<Term> {
    if c.to.seed == key.seed && c.context == context then Some(c.secret) else None
  }

  /** groupId and leaf index are signed only for update and commit leaves. */
  function SignedPlace(body: LeafBody, groupId: nat, leaf: nat): Option<Place> {
    if body.source.KeyPackageSource? then None else Some(Place(groupId, leaf))
  }

  function SignLeaf(signer: nat, body: LeafBody, groupId: nat, leaf: nat): LeafNode {
    LeafNode(body, LeafSignature(signer, body, SignedPlace(body, groupId, leaf)))
  }

  predicate VerifyLeaf(ln: LeafNode, groupId: nat, leaf: nat) {
    ln.signature == LeafSignature(ln.body.sigKey, ln.body, SignedPlace(ln.body, groupId, leaf))
  }
}
