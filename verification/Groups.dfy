/** A member's group object (mls/group/group.go, process.go, commit_gen.go, welcome_gen.go): commits
    are made and processed on a clone of the tree, and the object's fields change only at the end. */
module Groups {

  import opened TreeMath
  import opened Symbolic
  import opened Ratchet
  import opened PathInstall
  import opened TreeInvariant
  import opened Coverage
  import opened TreeKem
  import opened KeySchedule
  import opened RatchetTrees
  import GroupOps
  import Own = OwnKeys
  import Codec

  // ---------------------------------------------------------------- common ancestors

  /** The level-h ancestor of node x. */
  function NodeAncestor(x: nat, h: nat): nat
    requires Level(x) <= h
  {
    Index(h, Shr(Position(x), h - Level(x)))
  }

  lemma {:induction false} NodeAncestorSelf(x: nat)
    ensures NodeAncestor(x, Level(x)) == x
  {
    CoordinatesIndex(x);
  }

  /** In a complete tree of height K a node's parent is its ancestor one level up. */
  lemma {:induction false} AncestorStep(x: nat, h: nat, K: nat)
    requires x < Width(K) && Level(x) <= h <= K
    ensures NodeAncestor(x, h) < Width(K) == NodeWidth(Pow2(K)) && Level(NodeAncestor(x, h)) == h
    ensures h < K ==> ParentOf(NodeAncestor(x, h), Pow2(K)) == Some(NodeAncestor(x, h + 1))
    ensures h == K ==> NodeAncestor(x, h) == Root(Pow2(K)) == Index(K, 0)
    ensures h < K ==> NodeAncestor(x, h) != Root(Pow2(K))
  {
    var k, j := Level(x), Position(x);
    CoordinatesIndex(x);
    InWidth(k, j, K);
    ShrAdd(j, h - k, K - h);
    ShrZero(j, K - k);
    ShrZero(Shr(j, h - k), K - h);
    CompleteEdges(h, Shr(j, h - k), K);
    IndexCoordinates(h, Shr(j, h - k));
    if h < K { assert Shr(j, h + 1 - k) == Shr(j, h - k) / 2; }
  }

  ghost predicate FirstMeeting(x: nat, y: nat, start: nat, h: nat)
    requires Level(x) <= start && Level(y) <= start
  {
    start <= h && NodeAncestor(x, h) == NodeAncestor(y, h) && Apart(x, y, start, h)
  }

  ghost predicate Apart(x: nat, y: nat, start: nat, h: nat)
    requires Level(x) <= start && Level(y) <= start
  {
    forall g | start <= g < h :: NodeAncestor(x, g) != NodeAncestor(y, g)
  }

  lemma ApartStep(x: nat, y: nat, start: nat, h: nat)
    requires Level(x) <= start <= h && Level(y) <= start && Apart(x, y, start, h)
    requires NodeAncestor(x, h) != NodeAncestor(y, h)
    ensures Apart(x, y, start, h + 1)
  {
  }

  lemma TopMeets(x: nat, y: nat, K: nat)
    requires x < Width(K) && y < Width(K)
    ensures Level(x) <= K && Level(y) <= K && NodeAncestor(x, K) == NodeAncestor(y, K)
  {
    InHeight(x, K);
    InHeight(y, K);
    AncestorStep(x, K, K);
    AncestorStep(y, K, K);
  }

  lemma {:induction false} InHeight(x: nat, K: nat)
    requires x < Width(K)
    ensures Level(x) <= K
  {
    CoordinatesIndex(x);
    InWidth(Level(x), Position(x), K);
  }

  method ClimbTo(x: nat, level: nat, n: nat, ghost K: nat) returns (a: nat)
    requires x < Width(K) && n == Pow2(K) <= MAX_LEAVES && level <= K
    ensures a == if Level(x) < level then NodeAncestor(x, level) else x
  {
    a := x;
    ghost var h := Level(x);
    NodeAncestorSelf(x);
    InHeight(x, K);
    while Level(a) < level
      invariant Level(x) <= h <= K && a == NodeAncestor(x, h) && Level(a) == h && (h <= level || h == Level(x))
      decreases K - h
    {
      a := UpFrom(a, n, x, h, K);
      h := h + 1;
    }
  }

  method UpFrom(a: nat, n: nat, ghost x: nat, ghost h: nat, ghost K: nat) returns (p: nat)
    requires x < Width(K) && Level(x) <= h < K && n == Pow2(K) <= MAX_LEAVES && a == NodeAncestor(x, h)
    ensures p == NodeAncestor(x, h + 1) && Level(p) == h + 1
  {
    AncestorStep(x, h, K);
    AncestorStep(x, h + 1, K);
    var r := Parent(a, n);
    p := r.value;
  }

  /** Both up one level at a time until they meet. */
  method MeetFrom(x: nat, y: nat, a0: nat, b0: nat, n: nat, ghost start: nat, ghost K: nat) returns (r: nat)
    requires x < Width(K) && y < Width(K) && n == Pow2(K) <= MAX_LEAVES && Level(x) <= start <= K && Level(y) <= start
    requires a0 == NodeAncestor(x, start) && b0 == NodeAncestor(y, start)
    ensures Level(r) <= K && FirstMeeting(x, y, start, Level(r)) && r == NodeAncestor(x, Level(r))
  {
    var b := b0;
    r := a0;
    ghost var h := start;
    TopMeets(x, y, K);
    while r != b
      invariant start <= h <= K && r == NodeAncestor(x, h) && b == NodeAncestor(y, h) && Apart(x, y, start, h)
      decreases K - h
    {
      ApartStep(x, y, start, h);
      r := UpFrom(r, n, x, h, K);
      b := UpFrom(b, n, y, h, K);
      h := h + 1;
    }
    AncestorStep(x, h, K);
  }

  /** Climb the lower node to the other's level, then both together until they meet. */
  method LowestCommonAncestor(x: nat, y: nat, n: nat, ghost K: nat) returns (r: nat)
    requires x < Width(K) && y < Width(K) && n == Pow2(K) <= MAX_LEAVES
    ensures var start := if Level(x) < Level(y) then Level(y) else Level(x);
            Level(r) <= K && FirstMeeting(x, y, start, Level(r)) && r == NodeAncestor(x, Level(r))
  {
    ghost var start := if Level(x) < Level(y) then Level(y) else Level(x);
    InHeight(x, K);
    InHeight(y, K);
    NodeAncestorSelf(x);
    NodeAncestorSelf(y);
    var a := ClimbTo(x, Level(y), n, K);
    AncestorStep(x, start, K);
    var b := ClimbTo(y, Level(a), n, K);
    r := MeetFrom(x, y, a, b, n, start, K);
  }

  /** For two leaves that is where their paths meet. */
  lemma {:induction false} LeavesMeet(a: nat, b: nat, h: nat)
    requires Level(2 * a) == 0 && Level(2 * b) == 0 && FirstMeeting(2 * a, 2 * b, 0, h)
    ensures h == Meet(a, b) && NodeAncestor(2 * a, h) == GroupOps.CommonAncestor(a, b) == AncestorOf(a, h)
  {
    IndexStep(0, a);
    IndexStep(0, b);
    IndexCoordinates(0, a);
    IndexCoordinates(0, b);
    IndexCoordinates(h, Shr(a, h));
    IndexCoordinates(h, Shr(b, h));
    if h > 0 { assert NodeAncestor(2 * a, h - 1) != NodeAncestor(2 * b, h - 1); }
    MeetUnique(a, b, h);
  }

  method LeafCommonAncestor(a: nat, b: nat, n: nat, ghost K: nat) returns (r: nat)
    requires a < n && b < n && n == Pow2(K) <= MAX_LEAVES
    ensures r == GroupOps.CommonAncestor(a, b) && Meet(a, b) <= K
  {
    IndexStep(0, a);
    IndexStep(0, b);
    IndexCoordinates(0, a);
    IndexCoordinates(0, b);
    r := LowestCommonAncestor(2 * a, 2 * b, n, K);
    LeavesMeet(a, b, Level(r));
  }

  // ---------------------------------------------------------------- private keys

  class TreeKemPrivate {
    const leaf: nat
    var privs: map<nat, PrivateKey>

    constructor (leaf: nat, key: PrivateKey)
      ensures this.leaf == leaf && privs == map[2 * leaf := key]
    {
      this.leaf := leaf;
      privs := map[2 * leaf := key];
    }

    method AddPathSecret(node: nat, secret: Term)
      modifies this
      ensures privs == old(privs)[node := PrivateKey(NodeSeed(secret))]
    {
      privs := privs[node := PrivateKey(NodeSeed(secret))];
    }
  }

  lemma {:induction false} KeysFromLevel(secret: Term, L: nat, k: nat, H: nat, x: nat)
    requires x in GroupOps.AncestorKeys(secret, L, k, H)
    ensures k <= Level(x)
    decreases H + 1 - k
  {
    if k <= H {
      IndexCoordinates(k, Shr(L, k));
      if x != Index(k, Shr(L, k)) { KeysFromLevel(Derived(secret, PathLabel), L, k + 1, H, x); }
    }
  }

  lemma {:induction false} KeysStep(m: map<nat, PrivateKey>, secret: Term, L: nat, k: nat, H: nat)
    requires k <= H
    ensures m + GroupOps.AncestorKeys(secret, L, k, H) ==
            m[AncestorOf(L, k) := PrivateKey(NodeSeed(secret))]
              + GroupOps.AncestorKeys(Derived(secret, PathLabel), L, k + 1, H)
  {
    var rest := GroupOps.AncestorKeys(Derived(secret, PathLabel), L, k + 1, H);
    IndexCoordinates(k, Shr(L, k));
    if AncestorOf(L, k) in rest { KeysFromLevel(Derived(secret, PathLabel), L, k + 1, H, AncestorOf(L, k)); }
  }

  /** From the common ancestor to the root, one derivation per tree level. */
  method InstallJoinerPriv(priv: TreeKemPrivate, pathSecret: Term, own: nat, sender: nat, n: nat, ghost K: nat)
    requires own < n && sender < n && n == Pow2(K) <= MAX_LEAVES
    modifies priv
    ensures priv.privs == old(priv.privs) + GroupOps.AncestorKeys(pathSecret, own, Meet(own, sender), K)
  {
    var node := LeafCommonAncestor(own, sender, n, K);
    InstallFrom(priv, pathSecret, node, own, n, Meet(own, sender), K);
  }

  method InstallFrom(priv: TreeKemPrivate, pathSecret: Term, start: nat, own: nat, n: nat, ghost first: nat,
                     ghost K: nat)
    requires own < n == Pow2(K) <= MAX_LEAVES && first <= K && start == AncestorOf(own, first)
    modifies priv
    ensures priv.privs == old(priv.privs) + GroupOps.AncestorKeys(pathSecret, own, first, K)
  {
    var root, node, secret := Root(n), start, pathSecret;
    ghost var k, goal := first, old(priv.privs) + GroupOps.AncestorKeys(pathSecret, own, first, K);
    LeafClimb(own, first, K);
    while node != root
      invariant first <= k <= K && node == AncestorOf(own, k) && (node == root <==> k == K)
      invariant priv.privs + GroupOps.AncestorKeys(secret, own, k, K) == goal
      decreases K - k
    {
      KeysStep(priv.privs, secret, own, k, K);
      priv.AddPathSecret(node, secret);
      secret := Derived(secret, PathLabel);
      node := UpLeaf(node, n, own, k, K);
      k := k + 1;
      LeafClimb(own, k, K);
    }
    KeysStep(priv.privs, secret, own, k, K);
    priv.AddPathSecret(node, secret);
  }

  method UpLeaf(node: nat, n: nat, ghost own: nat, ghost k: nat, ghost K: nat) returns (p: nat)
    requires own < n == Pow2(K) <= MAX_LEAVES && k < K && node == AncestorOf(own, k)
    ensures p == AncestorOf(own, k + 1)
  {
    LeafClimb(own, k, K);
    var r := Parent(node, n);
    p := r.value;
  }

  lemma {:induction false} LeafClimb(L: nat, k: nat, K: nat)
    requires L < Pow2(K) && k <= K
    ensures AncestorOf(L, k) < Width(K) == NodeWidth(Pow2(K))
    ensures AncestorOf(L, k) == Root(Pow2(K)) <==> k == K
    ensures k < K ==> ParentOf(AncestorOf(L, k), Pow2(K)) == Some(AncestorOf(L, k + 1))
  {
    ShrAdd(L, k, K - k);
    ShrZero(L, K);
    ShrZero(Shr(L, k), K - k);
    CompleteEdges(k, Shr(L, k), K);
  }

  // ---------------------------------------------------------------- proposals on a working tree

  /** No addition outgrows 32-bit indices. */
  ghost predicate AddsFit(nodes: Nodes, rs: seq<GroupOps.Resolved>)
    requires Complete(nodes)
    decreases |rs|
  {
    && LeafCount(nodes) <= MAX_LEAVES
    && (rs != [] ==>
          if rs[0].proposal.Add? then
            GroupOps.AddedComplete(nodes, rs[0].proposal.keyPackage.leaf);
            LeafCount(nodes) < MAX_LEAVES && AddsFit(AddedLeaf(nodes, rs[0].proposal.keyPackage.leaf), rs[1..])
          else AddsFit(nodes, rs[1..]))
  }

  ghost predicate Fits(nodes: Nodes, rs: seq<GroupOps.Resolved>)
    requires Complete(nodes)
  {
    && LeafCount(nodes) <= MAX_LEAVES
    && match GroupOps.ApplyUpdates(nodes, rs)
       case None => true
       case Some(updated) =>
         match GroupOps.ApplyRemoves(updated, rs)
         case None => true
         case Some(removed) => AddsFit(removed, rs)
  }

  method UpdateAll(wt: RatchetTree, rs: seq<GroupOps.Resolved>) returns (ok: bool)
    requires wt.Valid()
    modifies wt
    ensures GroupOps.ApplyUpdates(old(wt.nodes), rs) == if ok then Some(wt.nodes) else None
    ensures wt.Valid()
  {
    var i := 0;
    while i < |rs|
      invariant 0 <= i <= |rs| && |wt.nodes| == |old(wt.nodes)|
      invariant GroupOps.ApplyUpdates(wt.nodes, rs[i..]) == GroupOps.ApplyUpdates(old(wt.nodes), rs)
    {
      assert rs[i..][0] == rs[i] && rs[i..][1..] == rs[i + 1..];
      if rs[i].proposal.Update? {
        ok := wt.UpdateLeaf(rs[i].sender, rs[i].proposal.leaf);
        if !ok { return; }
      }
      i := i + 1;
    }
    ok := true;
  }

  lemma RemovedShrinks(nodes: Nodes, L: nat)
    requires Complete(nodes) && 2 * L < |nodes|
    ensures Complete(RemovedLeaf(nodes, L)) && |RemovedLeaf(nodes, L)| <= |nodes|
  {
    var blanked := BlankPath(nodes, L)[2 * L := Blank];
    GroupOps.RefitComplete(blanked);
    FullWidthAtMost(0, |Trim(blanked, 1)|, Height(nodes));
  }

  lemma {:induction false} FullWidthAtMost(K: nat, n: nat, H: nat)
    requires K <= H && n <= Width(H)
    ensures FullWidthFrom(K, n) <= Width(H)
    decreases n - Width(K)
  {
    Pow2Monotone(K, H);
    if Width(K) < n && K < H { FullWidthAtMost(K + 1, n, H); }
  }

  method RemoveAll(wt: RatchetTree, rs: seq<GroupOps.Resolved>) returns (ok: bool)
    requires wt.Valid()
    modifies wt
    ensures GroupOps.ApplyRemoves(old(wt.nodes), rs) == if ok then Some(wt.nodes) else None
    ensures wt.Valid()
  {
    var i := 0;
    while i < |rs|
      invariant 0 <= i <= |rs| && wt.Valid()
      invariant GroupOps.ApplyRemoves(wt.nodes, rs[i..]) == GroupOps.ApplyRemoves(old(wt.nodes), rs)
    {
      assert rs[i..][0] == rs[i] && rs[i..][1..] == rs[i + 1..];
      if rs[i].proposal.Remove? {
        if 2 * rs[i].proposal.removed < |wt.nodes| { RemovedShrinks(wt.nodes, rs[i].proposal.removed); }
        ok := wt.RemoveLeaf(rs[i].proposal.removed);
        if !ok { return; }
      }
      i := i + 1;
    }
    ok := true;
  }

  /** What the additions so far and those still to come make together. */
  ghost predicate AddsSoFar(start: Nodes, rs: seq<GroupOps.Resolved>, i: nat, now: Nodes, leaves: seq<nat>,
                            packages: seq<KeyPackage>)
    requires Complete(start) && Complete(now) && i <= |rs|
  {
    var all, rest := GroupOps.ApplyAdds(start, rs), GroupOps.ApplyAdds(now, rs[i..]);
    all.nodes == rest.nodes && all.leaves == leaves + rest.leaves && all.packages == packages + rest.packages
  }

  method AddAll(wt: RatchetTree, rs: seq<GroupOps.Resolved>) returns (leaves: seq<nat>, packages: seq<KeyPackage>)
    requires wt.Valid() && AddsFit(wt.nodes, rs)
    modifies wt
    ensures GroupOps.Additions(wt.nodes, leaves, packages) == GroupOps.ApplyAdds(old(wt.nodes), rs)
    ensures wt.Valid()
  {
    leaves, packages := [], [];
    ghost var start := wt.nodes;
    var i := 0;
    while i < |rs|
      invariant 0 <= i <= |rs| && wt.Valid() && AddsFit(wt.nodes, rs[i..])
      invariant AddsSoFar(start, rs, i, wt.nodes, leaves, packages)
    {
      assert rs[i..][0] == rs[i] && rs[i..][1..] == rs[i + 1..];
      if rs[i].proposal.Add? {
        var kp := rs[i].proposal.keyPackage;
        AddsStep(start, rs, i, wt.nodes, leaves, packages);
        GroupOps.AddedComplete(wt.nodes, kp.leaf);
        var leaf := wt.AddLeaf(kp.leaf);
        leaves, packages := leaves + [leaf], packages + [kp];
      }
      i := i + 1;
    }
  }

  lemma AddsStep(start: Nodes, rs: seq<GroupOps.Resolved>, i: nat, now: Nodes, leaves: seq<nat>,
                 packages: seq<KeyPackage>)
    requires Complete(start) && Complete(now) && i < |rs| && rs[i].proposal.Add?
    requires AddsSoFar(start, rs, i, now, leaves, packages)
    ensures var kp := rs[i].proposal.keyPackage;
            && Complete(AddedLeaf(now, kp.leaf))
            && AddsSoFar(start, rs, i + 1, AddedLeaf(now, kp.leaf), leaves + [AddSlot(now)], packages + [kp])
  {
    var kp := rs[i].proposal.keyPackage;
    GroupOps.AddedComplete(now, kp.leaf);
    assert rs[i..][0] == rs[i] && rs[i..][1..] == rs[i + 1..];
    var rest := GroupOps.ApplyAdds(AddedLeaf(now, kp.leaf), rs[i + 1..]);
    assert leaves + ([AddSlot(now)] + rest.leaves) == leaves + [AddSlot(now)] + rest.leaves;
    assert packages + ([kp] + rest.packages) == packages + [kp] + rest.packages;
  }

  /** Updates, then removes, then adds, on the working tree. */
  method ApplyAll(wt: RatchetTree, rs: seq<GroupOps.Resolved>) returns (r: Option<GroupOps.Additions>)
    requires wt.Valid() && Fits(wt.nodes, rs)
    modifies wt
    ensures r == GroupOps.ApplyProposals(old(wt.nodes), rs)
    ensures r.Some? ==> wt.nodes == r.value.nodes && wt.Valid()
  {
    var ok := UpdateAll(wt, rs);
    if !ok { return None; }
    ok := RemoveAll(wt, rs);
    if !ok { return None; }
    var leaves, packages := AddAll(wt, rs);
    r := Some(GroupOps.Additions(wt.nodes, leaves, packages));
  }

  // ---------------------------------------------------------------- the Welcome

  /** One entry per added leaf; None when a common ancestor has no path secret. */
  method BuildWelcome(leaves: seq<nat>, packages: seq<KeyPackage>, committer: nat, secrets: map<nat, Term>,
                      info: GroupOps.SealedInfo, joiner: Term, n: nat, ghost K: nat)
    returns (r: Option<seq<GroupOps.WelcomeEntry>>)
    requires |leaves| == |packages| && n == Pow2(K) <= MAX_LEAVES && committer < n && forall l | l in leaves :: l < n
    ensures r == GroupOps.WelcomeEntries(leaves, packages, committer, secrets, info, joiner)
  {
    var out: seq<GroupOps.WelcomeEntry> := [];
    var i := 0;
    assert leaves[0..] == leaves && packages[0..] == packages;
    Codec.PrefixedTwice(out, out, GroupOps.WelcomeEntries(leaves, packages, committer, secrets, info, joiner));
    while i < |leaves|
      invariant 0 <= i <= |leaves|
      invariant GroupOps.WelcomeEntries(leaves, packages, committer, secrets, info, joiner) ==
                Codec.Prefixed(out, GroupOps.WelcomeEntries(leaves[i..], packages[i..], committer, secrets, info,
                  joiner))
    {
      assert leaves[i] in leaves && leaves[i..][1..] == leaves[i + 1..] && packages[i..][1..] == packages[i + 1..];
      var node := LeafCommonAncestor(leaves[i], committer, n, K);
      if node !in secrets { return None; }
      var entry := GroupOps.WelcomeEntry(packages[i], packages[i].initKey, info, joiner, secrets[node]);
      Codec.PrefixedTwice(out, [entry],
        GroupOps.WelcomeEntries(leaves[i + 1..], packages[i + 1..], committer, secrets, info, joiner));
      out := out + [entry];
      i := i + 1;
    }
    assert out + [] == out;
    r := Some(out);
  }

  // ---------------------------------------------------------------- the group

  method AllAuthentic(s: GroupOps.GroupState, refs: seq<ProposalRef>) returns (ok: bool)
    ensures ok == !(exists r | r in refs :: !GroupOps.Authentic(s, r))
  {
    var i := 0;
    while i < |refs|
      invariant 0 <= i <= |refs| && forall j | 0 <= j < i :: GroupOps.Authentic(s, refs[j])
    {
      if !GroupOps.Authentic(s, refs[i]) { return false; }
      i := i + 1;
    }
    ok := true;
  }

  class Group {
    var gc: GroupContext
    var tree: RatchetTree
    var priv: TreeKemPrivate
    var es: EpochSecrets
    var interim: Term
    var init: Term
    var ownLeaf: nat
    var signer: nat
    var pending: map<PublicKey, PrivateKey>

    function State(): GroupOps.GroupState
      reads this, tree, priv
    {
      GroupOps.GroupState(gc, tree.nodes, priv.privs, es, interim, init, ownLeaf, signer, pending)
    }

    constructor (gc: GroupContext, tree: RatchetTree, priv: TreeKemPrivate, es: EpochSecrets, interim: Term, init: Term,
                 ownLeaf: nat, signer: nat)
      ensures State() == GroupOps.GroupState(gc, tree.nodes, priv.privs, es, interim, init, ownLeaf, signer, map[])
      ensures this.tree == tree && this.priv == priv
    {
      this.gc, this.tree, this.priv, this.es, this.interim, this.init := gc, tree, priv, es, interim, init;
      this.ownLeaf, this.signer, this.pending := ownLeaf, signer, map[];
    }

    /** The clone a commit is worked out on, with the proposals applied. */
    method Prepare(rs: seq<GroupOps.Resolved>) returns (wt: RatchetTree?, adds: Option<GroupOps.Additions>)
      requires Cloned(tree.nodes).Some? ==> Complete(Cloned(tree.nodes).value) && Fits(Cloned(tree.nodes).value, rs)
      ensures Cloned(tree.nodes).None? ==> adds == None
      ensures Cloned(tree.nodes).Some? ==> adds == GroupOps.ApplyProposals(Cloned(tree.nodes).value, rs)
      ensures adds.Some? ==> wt != null && fresh(wt) && wt.Valid() && wt.nodes == adds.value.nodes
    {
      adds := None;
      wt := tree.Clone();
      if wt == null { return; }
      adds := ApplyAll(wt, rs);
    }

    /** Everything a new epoch changes, at once. */
    method Install(next: GroupOps.Advance, wt: RatchetTree, keys: TreeKemPrivate)
      modifies this
      ensures State() == GroupOps.GroupState(next.gc, wt.nodes, keys.privs, next.es, next.interim, next.es.init,
              old(ownLeaf), old(signer), map[])
      ensures tree == wt && priv == keys
    {
      gc, tree, priv, es, interim, init, pending := next.gc, wt, keys, next.es, next.interim, next.es.init, map[];
    }

    /** What the caller ensures before committing: indices stay within 32 bits and its own leaf is not
        cut off with the end of the tree. */
    ghost predicate Ready(rs: Option<seq<GroupOps.Resolved>>)
      reads this, tree
    {
      match (Cloned(tree.nodes), rs)
      case (Some(clone), Some(resolved)) =>
        && Complete(clone) && Fits(clone, resolved)
        && var adds := GroupOps.ApplyProposals(clone, resolved);
        adds.Some? ==> 2 * ownLeaf < |adds.value.nodes| && forall l | l in adds.value.leaves ::
          2 * l < |adds.value.nodes|
      case _ => true
    }

    /** The path of a received commit, on the working tree. */
    method FollowPath(wt: RatchetTree, adds: GroupOps.Additions, ext: nat, committer: nat, path: Option<UpdatePath>,
                      keys: map<nat, PrivateKey>)
      returns (p: Option<GroupOps.PathStep>)
      requires wt != tree && wt.Valid() && wt.nodes == adds.nodes
      modifies wt
      ensures p == GroupOps.ProcessPath(State(), adds, ext, committer, path, keys)
      ensures p.Some? ==> wt.nodes == p.value.nodes && wt.Valid()
    {
      if path.None? { return Some(GroupOps.PathStep(wt.nodes, Zeros, None)); }
      var up := path.value;
      if 2 * committer >= |wt.nodes| { return None; }
      var merged := new RatchetTree(wt.nodes);
      var ok := merged.Merge(committer, up);
      if !ok { return None; }
      var treeHash := merged.RootTreeHash();
      var context := GroupOps.EncryptionBase(State(), ext).(treeHash := treeHash);
      var opening := wt.ProcessUpdatePath(committer, up.nodes, keys, context, adds.leaves);
      if opening.PathError? { return None; }
      ok := wt.Merge(committer, up);
      if opening.NoSecret? { return Some(GroupOps.PathStep(wt.nodes, Zeros, None)); }
      p := Some(GroupOps.PathStep(wt.nodes, opening.commitSecret, Some(opening.secret)));
    }

    method Follow(wt: RatchetTree, adds: GroupOps.Additions, ext: nat, keys: TreeKemPrivate, msg: GroupOps.CommitMsg)
      returns (ok: bool)
      requires wt != tree && wt.Valid() && wt.nodes == adds.nodes
      requires 2 * ownLeaf < |adds.nodes| || (ParentsOk(adds.nodes) && Own.OwnPath(ownLeaf, keys.privs))
      modifies this, wt
      ensures GroupOps.ProcessWith(old(State()), adds, ext, keys.privs, msg) == if ok then Some(State()) else None
      ensures !ok ==> State() == old(State())
    {
      ok := false;
      var p := FollowPath(wt, adds, ext, msg.content.sender, msg.content.path, keys.privs);
      if p.None? { return; }
      var next := GroupOps.AdvanceEpoch(State(), wt.nodes, ext, p.value.commitSecret, msg.content);
      if next.tag != msg.tag { return; }
      var newPriv := keys;
      if p.value.pathSecret.Some? {
        if 2 * ownLeaf !in keys.privs { return; }
        SecretMeansLeaf(old(State()), adds, ext, msg.content.sender, msg.content.path, keys.privs);
        newPriv := new TreeKemPrivate(ownLeaf, keys.privs[2 * ownLeaf]);
        LeafRange(wt.nodes, ownLeaf);
        LeafRange(wt.nodes, msg.content.sender);
        InstallJoinerPriv(newPriv, p.value.pathSecret.value, ownLeaf, msg.content.sender, LeafCount(wt.nodes),
          Height(wt.nodes));
      }
      Install(next, wt, newPriv);
      ok := true;
    }

    /** What the caller ensures before processing a commit: indices stay within 32 bits and, should the
        commit cut its own leaf off with the end of the tree, its keys are on its own path and the tree
        well formed. */
    ghost predicate ReadyToProcess(rs: Option<seq<GroupOps.Resolved>>)
      reads this, tree, priv
    {
      match (Cloned(tree.nodes), rs)
      case (Some(clone), Some(resolved)) =>
        && Complete(clone) && Fits(clone, resolved)
        && var adds := GroupOps.ApplyProposals(clone, resolved);
           adds.Some? ==>
             2 * ownLeaf < |adds.value.nodes| ||
             (ParentsOk(adds.value.nodes) && Own.OwnPath(ownLeaf, priv.privs))
      case _ => true
    }

    /** Errors leave the group as it was. */
    method ProcessCommit(delivered: seq<ProposalRef>, msg: GroupOps.CommitMsg) returns (ok: bool)
      requires ReadyToProcess(GroupOps.Resolve(msg.content.proposals, delivered, msg.content.sender))
      modifies this
      ensures GroupOps.ProcessCommit(old(State()), delivered, msg) == if ok then Some(State()) else None
      ensures !ok ==> State() == old(State())
    {
      ok := false;
      var content := msg.content;
      var authentic := AllAuthentic(State(), delivered);
      if !authentic { return; }
      if !At(tree.nodes, 0, content.sender).LeafSlot? || content.groupId != gc.groupId || content.epoch != gc.epoch {
        return;
      }
      var rs := GroupOps.Resolve(content.proposals, delivered, content.sender);
      if rs.None? { return; }
      var wt, adds := Prepare(rs.value);
      if adds.None? { return; }
      var own := GroupOps.OwnUpdate(rs.value, ownLeaf, pending);
      if own.MissingKey? { return; }
      var keys := priv;
      if own.NewKey? {
        keys := new TreeKemPrivate(ownLeaf, own.key);
        IndexStep(0, ownLeaf);
        IndexCoordinates(0, ownLeaf);
      }
      ok := Follow(wt, adds.value, GroupOps.ApplyExtensions(gc.extensions, rs.value), keys, msg);
    }

    /** Errors leave the group as it was; otherwise it is at the next epoch. */
    method Commit(byReference: seq<ProposalRef>, byValue: seq<Proposal>, leafSecret: Term) returns (r: Option<Sent>)
      requires Ready(GroupOps.Resolve(GroupOps.Refs(byReference) + GroupOps.Values(byValue), byReference, ownLeaf))
      modifies this
      ensures if CannotSeal(old(State()), byReference, byValue) then r == None && State() == old(State())
              else CommitResult(GroupOps.Commit(old(State()), byReference, byValue, leafSecret), r, old(State()),
                State())
    {
      r := None;
      var proposals := GroupOps.Refs(byReference) + GroupOps.Values(byValue);
      var authentic := AllAuthentic(State(), byReference);
      if !authentic { return; }
      var rs := GroupOps.Resolve(proposals, byReference, ownLeaf);
      if rs.None? { return; }
      CommitIsOn(State(), byReference, byValue, leafSecret, rs.value);
      r := CommitResolved(proposals, rs.value, leafSecret);
    }

    /** The commit once its proposals are resolved. */
    method CommitResolved(proposals: seq<ProposalOrRef>, rs: seq<GroupOps.Resolved>, leafSecret: Term)
      returns (r: Option<Sent>)
      requires Ready(Some(rs))
      modifies this
      ensures if BlankAmong(AppliedTo(old(State()), rs), old(ownLeaf)) then r == None && State() == old(State())
              else CommitResult(CommitOn(old(State()), rs, proposals, leafSecret), r, old(State()), State())
    {
      r := None;
      var wt, adds := Prepare(rs);
      if adds.None? { return; }
      r := PathAndFinish(wt, adds.value, GroupOps.ApplyExtensions(gc.extensions, rs), proposals, leafSecret);
    }

    method PathAndFinish(wt: RatchetTree, adds: GroupOps.Additions, ext: nat, proposals: seq<ProposalOrRef>,
                         leafSecret: Term) returns (r: Option<Sent>)
      requires wt != tree && wt.Valid() && wt.nodes == adds.nodes && |adds.leaves| == |adds.packages|
      requires 2 * ownLeaf < |wt.nodes| && forall l | l in adds.leaves :: 2 * l < |wt.nodes|
      modifies this, wt
      ensures if BlankRecipient(adds.nodes, ownLeaf, OmittedEntries(adds.leaves))
              then r == None && State() == old(State())
              else CommitResult(CommitFrom(old(State()), adds, ext, proposals, leafSecret), r, old(State()), State())
    {
      var g := wt.GenerateUpdatePath(ownLeaf, leafSecret, signer, gc.groupId, adds.leaves,
        GroupOps.EncryptionBase(State(), ext));
      IndexStep(0, ownLeaf);
      if g.None? { return None; }
      r := Finish(wt, adds, g.value, ext, proposals, leafSecret);
    }

    method Finish(wt: RatchetTree, adds: GroupOps.Additions, g: Generated, ext: nat, proposals: seq<ProposalOrRef>,
                  leafSecret: Term) returns (r: Option<Sent>)
      requires wt != tree && wt.Valid() && wt.nodes == g.nodes && |adds.leaves| == |adds.packages|
      requires 2 * ownLeaf < |wt.nodes| && forall l | l in adds.leaves :: 2 * l < |wt.nodes|
      modifies this
      ensures CommitResult(GroupOps.FinishCommit(old(State()), adds, g, ext, proposals, leafSecret), r, old(State()),
              State())
    {
      var content := CommitContent(gc.groupId, gc.epoch, ownLeaf, proposals, Some(g.path));
      var next := GroupOps.AdvanceEpoch(State(), wt.nodes, ext, g.commitSecret, content);
      var keys := OwnKeys(ownLeaf, leafSecret, g.secrets);
      var info := GroupOps.SealedInfo(next.es.welcome,
        GroupOps.GroupInfo(next.gc, Trim(wt.nodes, 0), next.tag, ownLeaf, signer));
      var welcome := None;
      if |adds.leaves| > 0 {
        LeafRange(wt.nodes, ownLeaf);
        forall l | l in adds.leaves ensures l < LeafCount(wt.nodes) { LeafRange(wt.nodes, l); }
        var entries := BuildWelcome(adds.leaves, adds.packages, ownLeaf, g.secrets, info, next.es.joiner,
          LeafCount(wt.nodes), Height(wt.nodes));
        if entries.None? { return None; }
        welcome := Some(GroupOps.Welcome(entries.value, info));
      }
      Install(next, wt, keys);
      r := Some(Sent(GroupOps.CommitMsg(content, next.tag), welcome));
    }
  }

  /** After the proposals some node the path would be sealed to is blank, and so has no key. */
  ghost predicate CannotSeal(s: GroupOps.GroupState, byReference: seq<ProposalRef>, byValue: seq<Proposal>) {
    var proposals := GroupOps.Refs(byReference) + GroupOps.Values(byValue);
    match (Cloned(s.nodes), GroupOps.Resolve(proposals, byReference, s.ownLeaf))
    case (Some(clone), Some(rs)) => Complete(clone) && BlankAmong(GroupOps.ApplyProposals(clone, rs), s.ownLeaf)
    case _ => false
  }

  ghost predicate BlankAmong(adds: Option<GroupOps.Additions>, own: nat) {
    adds.Some? && BlankRecipient(adds.value.nodes, own, OmittedEntries(adds.value.leaves))
  }

  /** No ancestor of a leaf beyond the array is in it. */
  lemma {:induction false} BeyondArray(nodes: Nodes, L: nat, e: nat)
    requires Complete(nodes) && 2 * L >= |nodes| && Own.OnOwnPath(L, e)
    ensures e >= |nodes|
  {
    var H, k := Height(nodes), Level(e);
    CoordinatesIndex(e);
    IndexStep(0, L);
    InWidth(0, L, H);
    InWidth(k, Shr(L, k), H);
    if k <= H && Shr(L, k) < Pow2(H - k) {
      ShrAdd(L, k, H - k);
      ShrZero(Shr(L, k), H - k);
      ShrZero(L, H);
    }
  }

  lemma {:induction false} NothingFound(recipients: seq<seq<nat>>, path: seq<PathNode>, keys: map<nat, PrivateKey>,
                                        gc: GroupContext, i: nat)
    requires |recipients| == |path| && forall h | 0 <= h < |recipients| :: !HoldsAny(recipients[h], keys)
    ensures FindSecret(recipients, path, keys, gc, i) == Miss
    decreases |path| - i
  {
    if i < |path| {
      FirstHeldIn(recipients[i], keys);
      NothingFound(recipients, path, keys, gc, i + 1);
    }
  }

  /** Whoever gets a path secret still has its leaf in the tree. */
  lemma {:induction false} SecretMeansLeaf(s: GroupOps.GroupState, adds: GroupOps.Additions, ext: nat, committer: nat,
                                           path: Option<UpdatePath>, keys: map<nat, PrivateKey>)
    requires Complete(adds.nodes)
    requires 2 * s.ownLeaf < |adds.nodes| || (ParentsOk(adds.nodes) && Own.OwnPath(s.ownLeaf, keys))
    requires var p := GroupOps.ProcessPath(s, adds, ext, committer, path, keys); p.Some? && p.value.pathSecret.Some?
    ensures 2 * s.ownLeaf < |adds.nodes|
  {
    if 2 * s.ownLeaf >= |adds.nodes| {
      var omitted := OmittedEntries(adds.leaves);
      NothingHeldBeyond(adds.nodes, committer, s.ownLeaf, keys, omitted);
      var after := Merged(adds.nodes, committer, GroupOps.Keys(path.value.nodes), path.value.leaf);
      NothingFound(RecipientLists(adds.nodes, committer, omitted), path.value.nodes, keys,
                   GroupOps.EncryptionBase(s, ext).(treeHash := RootHash(after)), 0);
    }
  }

  lemma {:induction false} NothingHeldBeyond(nodes: Nodes, c: nat, L: nat, keys: map<nat, PrivateKey>,
                                             omitted: set<nat>)
    requires Complete(nodes) && ParentsOk(nodes) && 2 * L >= |nodes| && Own.OwnPath(L, keys)
    ensures forall h | 0 <= h < |RecipientLists(nodes, c, omitted)| ::
            !HoldsAny(RecipientLists(nodes, c, omitted)[h], keys)
  {
    var lists := RecipientLists(nodes, c, omitted);
    forall h | 0 <= h < |lists| ensures !HoldsAny(lists[h], keys) {
      forall e | e in lists[h] ensures e !in keys {
        Own.RecipientBelow(nodes, c, omitted, PathLevels(nodes, c)[h], e);
        if e in keys { BeyondArray(nodes, L, e); }
      }
    }
  }

  /** A commit once its proposals are applied. */
  ghost function CommitFrom(s: GroupOps.GroupState, adds: GroupOps.Additions, ext: nat, proposals: seq<ProposalOrRef>,
                            leafSecret: Term): Option<GroupOps.Committed>
    requires |adds.leaves| == |adds.packages|
  {
    match Generate(adds.nodes, s.ownLeaf, leafSecret, s.signer, s.gc.groupId, OmittedEntries(adds.leaves),
      GroupOps.EncryptionBase(s, ext))
    case None => None
    case Some(g) => GroupOps.FinishCommit(s, adds, g, ext, proposals, leafSecret)
  }

  /** The proposals applied to a clone of the tree. */
  ghost function AppliedTo(s: GroupOps.GroupState, rs: seq<GroupOps.Resolved>): (r: Option<GroupOps.Additions>)
    ensures r.Some? ==> |r.value.leaves| == |r.value.packages|
  {
    match Cloned(s.nodes)
    case None => None
    case Some(clone) => if Complete(clone) then GroupOps.ApplyProposals(clone, rs) else None
  }

  /** A commit once its proposals are resolved. */
  ghost function CommitOn(s: GroupOps.GroupState, rs: seq<GroupOps.Resolved>, proposals: seq<ProposalOrRef>,
                          leafSecret: Term): Option<GroupOps.Committed>
  {
    match AppliedTo(s, rs)
    case None => None
    case Some(adds) => CommitFrom(s, adds, GroupOps.ApplyExtensions(s.gc.extensions, rs), proposals, leafSecret)
  }

  lemma CommitIsOn(s: GroupOps.GroupState, byReference: seq<ProposalRef>, byValue: seq<Proposal>, leafSecret: Term,
                   rs: seq<GroupOps.Resolved>)
    requires !(exists r | r in byReference :: !GroupOps.Authentic(s, r))
    requires GroupOps.Resolve(GroupOps.Refs(byReference) + GroupOps.Values(byValue), byReference, s.ownLeaf) == Some(rs)
    ensures CannotSeal(s, byReference, byValue) <==> BlankAmong(AppliedTo(s, rs), s.ownLeaf)
    ensures GroupOps.Commit(s, byReference, byValue, leafSecret) ==
            CommitOn(s, rs, GroupOps.Refs(byReference) + GroupOps.Values(byValue), leafSecret)
  {
  }

  datatype Sent = Sent(msg: GroupOps.CommitMsg, welcome: Option<GroupOps.Welcome>)

  ghost predicate CommitResult(spec: Option<GroupOps.Committed>, r: Option<Sent>, before: GroupOps.GroupState,
                               after: GroupOps.GroupState) {
    match spec
    case None => r == None && after == before
    case Some(c) => r == Some(Sent(c.msg, c.welcome)) && after == c.state
  }

  /** The committer's new leaf key and one key per path secret. */
  method OwnKeys(own: nat, leafSecret: Term, secrets: map<nat, Term>) returns (keys: TreeKemPrivate)
    ensures fresh(keys) && keys.privs == GroupOps.CommitterKeys(own, leafSecret, secrets)
  {
    keys := new TreeKemPrivate(own, PrivateKey(NodeSeed(leafSecret)));
    var left := secrets.Keys;
    while left != {}
      invariant fresh(keys) && left <= secrets.Keys
      invariant keys.privs == KeysFor(own, leafSecret, secrets, secrets.Keys - left)
      decreases left
    {
      var x :| x in left;
      keys.AddPathSecret(x, secrets[x]);
      left := left - {x};
    }
    assert secrets.Keys - left == secrets.Keys;
  }

  ghost function KeysFor(own: nat, leafSecret: Term, secrets: map<nat, Term>, done: set<nat>): map<nat, PrivateKey> {
    map x | x in {2 * own} + done ::
      if x in secrets && x in done then PrivateKey(NodeSeed(secrets[x])) else PrivateKey(NodeSeed(leafSecret))
  }

  /** In a tree that satisfies the parent invariants every node to encrypt to has a key. */
  lemma NoBlankRecipient(nodes: Nodes, L: nat, omitted: set<nat>)
    requires ParentsOk(nodes)
    ensures !BlankRecipient(nodes, L, omitted)
  {
    var lists := RecipientLists(nodes, L, omitted);
    forall i, d | 0 <= i < |lists| && d in lists[i] ensures !SlotAt(nodes, d).Blank? {
      var k := PathLevels(nodes, L)[i];
      WithoutKeeps(CopathResolution(nodes, L, k), omitted, d);
      ResolvedPresent(nodes, k - 1, Flip(Shr(L, k - 1)), d);
    }
  }

  lemma {:induction false} ResolvedPresent(nodes: Nodes, k: nat, j: nat, d: nat)
    requires ParentsOk(nodes) && d in Resolution(nodes, k, j)
    ensures !SlotAt(nodes, d).Blank?
  {
    match At(nodes, k, j)
    case LeafSlot(_) =>
    case ParentSlot(p) =>
      if d != Index(k, j) {
        assert ParentOk(nodes, k, j, p);
        var i :| 0 <= i < |p.unmerged| && d == 2 * p.unmerged[i];
        assert p.unmerged[i] in p.unmerged;
        IndexStep(0, p.unmerged[i]);
      }
    case Blank =>
      if d in Resolution(nodes, k - 1, 2 * j) { ResolvedPresent(nodes, k - 1, 2 * j, d); }
      else { ResolvedPresent(nodes, k - 1, 2 * j + 1, d); }
  }

  lemma LeafRange(nodes: Nodes, L: nat)
    requires Complete(nodes) && 2 * L < |nodes|
    ensures L < LeafCount(nodes) == Pow2(Height(nodes))
  {
  }
}
