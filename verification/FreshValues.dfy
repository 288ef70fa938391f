/** For every tree there are secrets, keys and identities it does not contain. */
module FreshValues {

  import opened TreeMath
  import opened Symbolic
  import opened Ratchet
  import opened PathInstall
  import opened ParentHashes
  import opened TreeKem
  import opened GroupOps
  import opened GroupAgreement
  import opened CommitterSwitch

  function Larger(a: nat, b: nat): nat {
    if a < b then b else a
  }

  function HashedDepth(slot: Slot): nat {
    match StoredHash(slot)
    case Some(ParentHash(key, _, _)) => Chain(key.seed)
    case _ => 0
  }

  function KeyDepth(slot: Slot): nat {
    if slot.LeafSlot? then Chain(slot.leaf.body.key.seed) else 0
  }

  /** The deepest leaf key and the deepest key under a stored parent hash. */
  function Depth(nodes: Nodes): nat {
    if nodes == [] then 0 else Larger(Larger(HashedDepth(nodes[0]), KeyDepth(nodes[0])), Depth(nodes[1..]))
  }

  function HighestSigner(nodes: Nodes): nat {
    if nodes == [] then 0
    else Larger(if nodes[0].LeafSlot? then nodes[0].leaf.body.sigKey else 0, HighestSigner(nodes[1..]))
  }

  lemma {:induction false} DepthBounds(nodes: Nodes, i: nat)
    ensures var slot := SlotAt(nodes, i);
            && HashedDepth(slot) <= Depth(nodes) && KeyDepth(slot) <= Depth(nodes)
            && (slot.LeafSlot? ==> slot.leaf.body.sigKey <= HighestSigner(nodes))
  {
    if 0 < i < |nodes| { DepthBounds(nodes[1..], i - 1); }
  }

  /** A secret deeper than anything in the tree. */
  function NewSecret(nodes: Nodes): Term {
    PathSecret(Random(0), Depth(nodes) + 1)
  }

  lemma NewSecretIsFresh(nodes: Nodes, c: nat)
    ensures FreshPath(nodes, c, NewSecret(nodes))
  {
    var secret := NewSecret(nodes);
    var pubs := PathKeys(secret, Rank(nodes, c, Height(nodes)));
    PathSecretDepth(Random(0), Depth(nodes) + 1);
    forall i: nat, h: nat, key, above, sibling |
      0 <= h < |pubs| && StoredHash(SlotAt(nodes, i)) == Some(ParentHash(key, above, sibling))
      ensures key != pubs[h]
    {
      DepthBounds(nodes, i);
      PathSecretDepth(secret, h + 1);
    }
    forall M: nat | M != c && At(nodes, 0, M).LeafSlot?
      ensures At(nodes, 0, M).leaf.body.key != PublicKey(NodeSeed(secret))
    {
      DepthBounds(nodes, Index(0, M));
    }
  }

  /** A key package with keys of its own. */
  function NewPackage(nodes: Nodes): KeyPackage {
    var sigKey := HighestSigner(nodes) + 1;
    var body := LeafBody(PublicKey(NewSecret(nodes)), sigKey, sigKey, KeyPackageSource(0));
    KeyPackage(PublicKey(Random(sigKey)), SignLeaf(sigKey, body, 0, 0))
  }

  lemma NewPackageIsNew(nodes: Nodes, groupId: nat, L: nat)
    ensures NewPackage(nodes).leaf.body.source.KeyPackageSource? && NewLeafOk(nodes, L, NewPackage(nodes).leaf, groupId)
  {
    var leaf := NewPackage(nodes).leaf;
    PathSecretDepth(Random(0), Depth(nodes) + 1);
    forall M: nat | M != L ensures !SameKeys(At(nodes, 0, M), LeafSlot(leaf)) {
      DepthBounds(nodes, Index(0, M));
    }
  }
}
