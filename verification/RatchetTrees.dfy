/** The ratchet tree as an object that its operations overwrite, grow and truncate in place
    (mls/tree/mutate.go, treesync.go, treekem.go, validation.go, node.go). Every method is proved to
    leave the array the tree specification says. */
module RatchetTrees {

  import opened TreeMath
  import opened Symbolic
  import opened Ratchet
  import opened PathInstall
  import opened TreeInvariant
  import opened ParentHashes
  import opened TreeKem
  import GroupOps

  // ---------------------------------------------------------------- walking a direct path

  /** The level-k ancestor of leaf L, as an array index. */
  function AncestorOf(L: nat, k: nat): nat {
    Index(k, Shr(L, k))
  }

  /** The level-k node beside L's path. */
  function BesidePath(L: nat, k: nat): nat {
    Index(k, Flip(Shr(L, k)))
  }

  lemma {:induction false} PathClimb(L: nat, k: nat, H: nat)
    requires k <= H && Shr(L, k) < Pow2(H - k)
    ensures AncestorOf(L, k) == Root(Pow2(H)) <==> k == H
    ensures AncestorOf(L, k) < NodeWidth(Pow2(H))
    ensures k < H ==> ParentOf(AncestorOf(L, k), Pow2(H)) == Some(AncestorOf(L, k + 1))
  {
    CompleteEdges(k, Shr(L, k), H);
  }

  lemma {:induction false} PathBeside(L: nat, k: nat, H: nat)
    requires k < H && Shr(L, k) < Pow2(H - k)
    ensures AncestorOf(L, k) < NodeWidth(Pow2(H))
    ensures SiblingOf(AncestorOf(L, k), Pow2(H)) == Some(BesidePath(L, k)) && BesidePath(L, k) < Width(H)
  {
    CompleteSibling(k, Shr(L, k), H);
    BesideInWidth(k, Shr(L, k), H);
  }

  lemma {:induction false} BesideInWidth(k: nat, j: nat, H: nat)
    requires k < H && j < Pow2(H - k)
    ensures Index(k, j) < Width(H) && Index(k, Flip(j)) < Width(H)
  {
    assert Pow2(H - k) == 2 * Pow2(H - k - 1);
    InWidth(k, j, H);
    InWidth(k, Flip(j), H);
  }

  lemma {:induction false} PathStep(nodes: Nodes, L: nat, k: nat)
    requires Complete(nodes) && 2 * L < |nodes| && k <= Height(nodes)
    ensures LeafCount(nodes) == Pow2(Height(nodes)) && NodeWidth(LeafCount(nodes)) == |nodes|
    ensures AncestorOf(L, k) < |nodes|
    ensures AncestorOf(L, k) == Root(LeafCount(nodes)) <==> k == Height(nodes)
    ensures k < Height(nodes) ==> ParentOf(AncestorOf(L, k), LeafCount(nodes)) == Some(AncestorOf(L, k + 1))
    ensures k < Height(nodes) ==> SiblingOf(AncestorOf(L, k), LeafCount(nodes)) == Some(BesidePath(L, k))
    ensures k < Height(nodes) ==> BesidePath(L, k) < |nodes|
  {
    AncestorInRange(nodes, L, k);
    PathClimb(L, k, Height(nodes));
    if k < Height(nodes) { PathBeside(L, k, Height(nodes)); }
  }

  lemma LeafAncestor(L: nat)
    ensures AncestorOf(L, 0) == 2 * L
  {
    IndexStep(0, L);
  }

  /** The array with L's path blanked up to level k. */
  ghost function BlankedTo(nodes: Nodes, L: nat, k: nat): (r: Nodes)
    ensures |r| == |nodes|
  {
    seq(|nodes|, i requires 0 <= i < |nodes| => if OnPath(i, L) && Level(i) <= k then Blank else nodes[i])
  }

  lemma {:induction false} BlankedStep(nodes: Nodes, L: nat, k: nat)
    requires AncestorOf(L, k + 1) < |nodes|
    ensures BlankedTo(nodes, L, k)[AncestorOf(L, k + 1) := Blank] == BlankedTo(nodes, L, k + 1)
  {
    var p := AncestorOf(L, k + 1);
    IndexCoordinates(k + 1, Shr(L, k + 1));
    forall i | 0 <= i < |nodes| && OnPath(i, L) && Level(i) == k + 1 ensures i == p { CoordinatesIndex(i); }
  }

  lemma {:induction false} BlankedNone(nodes: Nodes, L: nat)
    ensures BlankedTo(nodes, L, 0) == nodes
  {
  }

  lemma {:induction false} BlankedAll(nodes: Nodes, L: nat)
    requires Complete(nodes)
    ensures BlankedTo(nodes, L, Height(nodes)) == BlankPath(nodes, L)
  {
    forall i | 0 <= i < |nodes| ensures Level(i) <= Height(nodes) { LevelInWidth(nodes, i); }
  }

  lemma {:induction false} LevelInWidth(nodes: Nodes, i: nat)
    requires Complete(nodes) && i < |nodes|
    ensures Level(i) <= Height(nodes)
  {
    CoordinatesIndex(i);
    InWidth(Level(i), Position(i), Height(nodes));
  }

  // ---------------------------------------------------------------- widths

  method ComputeFullWidth(n: nat) returns (w: nat)
    ensures w == FullWidth(n)
  {
    w := 1;
    ghost var K := 0;
    while w < n
      invariant w == Width(K) && FullWidthFrom(K, n) == FullWidth(n)
      decreases n - w
    {
      w := 2 * w + 1;
      K := K + 1;
    }
  }

  method TrimTo(nodes: Nodes, least: nat) returns (r: Nodes)
    requires least <= |nodes|
    ensures r == Trim(nodes, least)
  {
    r := nodes;
    while |r| > least && r[|r| - 1].Blank?
      invariant least <= |r| && Trim(r, least) == Trim(nodes, least)
    {
      r := r[..|r| - 1];
    }
  }

  method InsertLeaf(s: seq<nat>, x: nat) returns (r: seq<nat>)
    ensures r == Insert(s, x)
  {
    var lo := 0;
    while lo < |s| && s[lo] < x
      invariant lo <= |s| && InsertPoint(s, x) == lo + InsertPoint(s[lo..], x)
    {
      assert s[lo..][1..] == s[lo + 1..];
      lo := lo + 1;
    }
    r := s[..lo] + [x] + s[lo..];
  }

  // ---------------------------------------------------------------- the tree

  class RatchetTree {
    var nodes: Nodes

    /** A complete array whose indices fit 32 bits. */
    predicate Valid()
      reads this
    {
      Complete(nodes) && LeafCount(nodes) <= MAX_LEAVES
    }

    constructor (n: Nodes)
      ensures nodes == n
    {
      nodes := n;
    }

    method BlankDirectPath(leaf: nat)
      requires Valid() && 2 * leaf < |nodes|
      modifies this
      ensures nodes == BlankPath(old(nodes), leaf)
    {
      var leaves := LeafCount(nodes);
      var root := Root(leaves);
      var x := 2 * leaf;
      ghost var was, k := nodes, 0;
      LeafAncestor(leaf);
      BlankedNone(was, leaf);
      PathStep(was, leaf, 0);
      while x != root
        invariant k <= Height(was) && x == AncestorOf(leaf, k) && nodes == BlankedTo(was, leaf, k)
        invariant x != root <==> k < Height(was)
        decreases Height(was) - k
      {
        PathStep(was, leaf, k);
        PathStep(was, leaf, k + 1);
        var p := Parent(x, leaves);
        nodes := nodes[p.value := Blank];
        BlankedStep(was, leaf, k);
        x, k := p.value, k + 1;
      }
      BlankedAll(was, leaf);
    }

    method UpdateLeaf(leaf: nat, ln: LeafNode) returns (ok: bool)
      requires Valid()
      modifies this
      ensures ok <==> 2 * leaf < |old(nodes)|
      ensures nodes == if ok then UpdatedLeaf(old(nodes), leaf, ln) else old(nodes)
    {
      if 2 * leaf >= |nodes| { return false; }
      nodes := nodes[2 * leaf := LeafSlot(ln)];
      BlankDirectPath(leaf);
      LeafFirst(old(nodes), leaf, LeafSlot(ln));
      ok := true;
    }

    method RemoveLeaf(leaf: nat) returns (ok: bool)
      requires Valid()
      modifies this
      ensures ok <==> 2 * leaf < |old(nodes)|
      ensures nodes == if ok then RemovedLeaf(old(nodes), leaf) else old(nodes)
    {
      if 2 * leaf >= |nodes| { return false; }
      nodes := nodes[2 * leaf := Blank];
      BlankDirectPath(leaf);
      LeafFirst(old(nodes), leaf, Blank);
      nodes := TrimTo(nodes, 1);
      var w := ComputeFullWidth(|nodes|);
      nodes := nodes + seq(w - |nodes|, _ => Blank);
      ok := true;
    }

    method FirstBlankLeaf() returns (found: bool, leaf: nat)
      ensures found <==> 2 * AddSlot(nodes) < |nodes|
      ensures found ==> leaf == AddSlot(nodes)
    {
      leaf := 0;
      while 2 * leaf < |nodes|
        invariant FirstBlankFrom(nodes, leaf) == AddSlot(nodes)
      {
        if nodes[2 * leaf].Blank? { return true, leaf; }
        leaf := leaf + 1;
      }
      found := false;
    }

    /** The leftmost blank leaf, after growing if there is none. */
    method MakeRoom() returns (leaf: nat)
      requires Valid() && LeafCount(nodes) < MAX_LEAVES
      modifies this
      ensures nodes == Room(old(nodes)) && leaf == AddSlot(old(nodes)) && Valid()
    {
      var found;
      found, leaf := FirstBlankLeaf();
      if !found {
        ghost var was := nodes;
        nodes := nodes + [Blank, Blank];
        var w := ComputeFullWidth(|nodes|);
        nodes := nodes + seq(w - |nodes|, _ => Blank);
        assert nodes == Grown(was);
        GrownValid(was);
        SameFirstBlank(was, Grown(was), 0);
        RoomHolds(was);
        found, leaf := FirstBlankLeaf();
      }
    }

    method AddLeaf(ln: LeafNode) returns (leaf: nat)
      requires Valid() && LeafCount(nodes) < MAX_LEAVES
      modifies this
      ensures nodes == AddedLeaf(old(nodes), ln) && leaf == AddSlot(old(nodes))
    {
      leaf := MakeRoom();
      ghost var room := nodes;
      nodes := nodes[2 * leaf := LeafSlot(ln)];
      MarkDirectPath(leaf);
      MarkFirst(room, leaf, LeafSlot(ln));
    }

    /** Lists the leaf as unmerged at every populated ancestor. */
    method MarkDirectPath(leaf: nat)
      requires Valid() && 2 * leaf < |nodes|
      modifies this
      ensures nodes == MarkUnmerged(old(nodes), leaf)
    {
      var leaves := LeafCount(nodes);
      var root := Root(leaves);
      var x := 2 * leaf;
      ghost var was, k := nodes, 0;
      LeafAncestor(leaf);
      assert nodes == MarkedTo(was, leaf, 0);
      PathStep(was, leaf, 0);
      while x != root
        invariant k <= Height(was) && x == AncestorOf(leaf, k) && nodes == MarkedTo(was, leaf, k)
        invariant x != root <==> k < Height(was)
        decreases Height(was) - k
      {
        PathStep(was, leaf, k);
        PathStep(was, leaf, k + 1);
        MarkedStep(was, leaf, k);
        var p := Parent(x, leaves);
        MarkNode(p.value, leaf);
        x, k := p.value, k + 1;
      }
      MarkedAll(was, leaf);
    }

    method MarkNode(p: nat, leaf: nat)
      requires p < |nodes|
      modifies this
      ensures nodes == old(nodes)[p := WithUnmerged(old(nodes)[p], leaf)]
    {
      if nodes[p].ParentSlot? {
        var listed := InsertLeaf(nodes[p].parent.unmerged, leaf);
        nodes := nodes[p := ParentSlot(nodes[p].parent.(unmerged := listed))];
      }
    }

    /** Marshal and parse; an array with nothing left after trimming does not parse. */
    method Clone() returns (t: RatchetTree?)
      ensures match Cloned(nodes)
              case None => t == null
              case Some(n) => t != null && fresh(t) && t.nodes == n
    {
      var kept := TrimTo(nodes, 0);
      if |kept| == 0 { return null; }
      var w := ComputeFullWidth(|kept|);
      t := new RatchetTree(kept + seq(w - |kept|, _ => Blank));
    }

    method ResolutionOf(i: nat) returns (r: seq<nat>)
      requires Valid() && i < |nodes|
      ensures r == Resolution(nodes, Level(i), Position(i))
      decreases Level(i)
    {
      CoordinatesIndex(i);
      if !nodes[i].Blank? {
        if !nodes[i].ParentSlot? { return [i]; }
        var unmerged := DoubleAll(nodes[i].parent.unmerged);
        return [i] + unmerged;
      }
      var left := Left(i);
      if left.None? { return []; }
      NodeChildren(nodes, i);
      var right := Right(i, LeafCount(nodes));
      var ls := ResolutionOf(left.value);
      var rs := ResolutionOf(right.value);
      r := ls + rs;
    }

    method TreeHashOf(i: nat, excluded: set<nat>) returns (h: Term)
      requires Valid() && i < |nodes|
      ensures h == TreeHash(nodes, Level(i), Position(i), excluded)
      decreases Level(i)
    {
      CoordinatesIndex(i);
      var left := Left(i);
      if left.None? {
        IndexStep(0, Position(i));
        var leaf := i / 2;
        return LeafHash(leaf, if nodes[i].LeafSlot? && leaf !in excluded then Some(nodes[i].leaf) else None);
      }
      NodeChildren(nodes, i);
      var right := Right(i, LeafCount(nodes));
      var l := TreeHashOf(left.value, excluded);
      var r := TreeHashOf(right.value, excluded);
      var parent := ParentInput(nodes[i], excluded);
      h := NodeHash(parent, l, r);
    }

    method RootTreeHash() returns (h: Term)
      requires Valid()
      ensures h == RootHash(nodes)
    {
      RootAt(nodes);
      h := TreeHashOf(Root(LeafCount(nodes)), {});
    }

    /** One step up a direct path, with the resolution of the node beside it. */
    method ClimbOne(x: nat, ghost leaf: nat, ghost k: nat) returns (p: nat, res: seq<nat>)
      requires Valid() && 2 * leaf < |nodes| && k < Height(nodes) && x == AncestorOf(leaf, k)
      ensures p == AncestorOf(leaf, k + 1) && res == Resolution(nodes, k, Flip(Shr(leaf, k)))
    {
      PathStep(nodes, leaf, k);
      IndexCoordinates(k, Flip(Shr(leaf, k)));
      var above := Parent(x, LeafCount(nodes));
      var beside := Sibling(x, LeafCount(nodes));
      p := above.value;
      res := ResolutionOf(beside.value);
    }

    /** Ancestors whose other child resolves to something, from the leaf up. */
    method FilteredDirectPath(leaf: nat) returns (path: seq<nat>)
      requires Valid() && 2 * leaf < |nodes|
      ensures path == PathNodes(leaf, PathLevels(nodes, leaf))
    {
      var root := Root(LeafCount(nodes));
      var x := 2 * leaf;
      ghost var k := 0;
      LeafAncestor(leaf);
      PathStep(nodes, leaf, 0);
      path := [];
      while x != root
        invariant k <= Height(nodes) && x == AncestorOf(leaf, k) &&
                  path == PathNodes(leaf, FilteredLevels(nodes, leaf, k))
        invariant x != root <==> k < Height(nodes)
        decreases Height(nodes) - k
      {
        var p, res := ClimbOne(x, leaf, k);
        FilteredStep(nodes, leaf, k);
        if |res| > 0 { path := path + [p]; }
        x, k := p, k + 1;
        PathStep(nodes, leaf, k);
      }
    }

    /** The child of p whose subtree holds the target. */
    method PathChild(p: nat, target: nat) returns (c: nat)
      requires Valid() && p < |nodes| && Level(p) > 0
      ensures RightOf(p, LeafCount(nodes)).Some?
      ensures c == if InSubtree(LeftBelow(p), target) then LeftBelow(p) else RightOf(p, LeafCount(nodes)).value
    {
      NodeChildren(nodes, p);
      var l := Left(p);
      if InSubtree(l.value, target) { return l.value; }
      var r := Right(p, LeafCount(nodes));
      c := r.value;
    }

    /** The child of L's level-h ancestor off L's path, from any lower ancestor of L. */
    method CopathChild(p: nat, target: nat, ghost L: nat, ghost g: nat, ghost h: nat) returns (s: nat)
      requires Valid() && 2 * L < |nodes| && g < h <= Height(nodes) && p == AncestorOf(L, h)
      requires target == AncestorOf(L, g)
      ensures s == BesidePath(L, h - 1) && s < |nodes|
      ensures Level(s) == h - 1 && Position(s) == Flip(Shr(L, h - 1))
    {
      PathStep(nodes, L, h);
      PathStep(nodes, L, h - 1);
      PathChildSide(L, h);
      LeftHolds(L, g, h);
      NodeChildren(nodes, p);
      IndexCoordinates(h, Shr(L, h));
      IndexCoordinates(h - 1, Flip(Shr(L, h - 1)));
      var c := PathChild(p, target);
      assert c == AncestorOf(L, h - 1);
      var beside := Sibling(c, LeafCount(nodes));
      s := beside.value;
    }

    method ParentHashFor(p: nat, s: nat) returns (h: Term)
      requires Valid() && p < |nodes| && s < |nodes| && nodes[p].ParentSlot?
      ensures h == ParentHashOf(nodes, nodes[p].parent, Level(s), Position(s))
    {
      var parent := nodes[p].parent;
      var excluded := CollectLeaves(parent.unmerged);
      var original := TreeHashOf(s, excluded);
      h := ParentHash(parent.key, parent.parentHash, original);
    }

    /** Blanks the sender's path, gives its filtered part new keys, then parent hashes from the top. */
    method InstallPath(leaf: nat, pubs: seq<PublicKey>) returns (path: Option<seq<nat>>)
      requires Valid() && 2 * leaf < |nodes|
      modifies this
      ensures path.Some? <==> |pubs| == |PathLevels(old(nodes), leaf)|
      ensures if path.Some? then nodes == Installed(old(nodes), leaf, pubs) &&
              path.value == PathNodes(leaf, PathLevels(old(nodes), leaf))
              else nodes == old(nodes)
    {
      var fdp := FilteredDirectPath(leaf);
      if |fdp| != |pubs| { return None; }
      ghost var was, levels := nodes, PathLevels(nodes, leaf);
      BlankDirectPath(leaf);
      StateStart(was, leaf, pubs, |pubs|);
      var i := 0;
      while i < |fdp|
        invariant 0 <= i <= |fdp| && nodes == PathState(was, leaf, pubs, i, |pubs|)
      {
        StateKey(was, leaf, pubs, i);
        nodes := nodes[fdp[i] := ParentSlot(ParentNode(pubs[i], Empty, []))];
        i := i + 1;
      }
      AssignHashes(leaf, pubs, fdp, was);
      StateEnd(was, leaf, pubs);
      path := Some(fdp);
    }

    method AssignHashes(leaf: nat, ghost pubs: seq<PublicKey>, fdp: seq<nat>, ghost was: Nodes)
      requires Complete(was) && LeafCount(was) <= MAX_LEAVES && 2 * leaf < |was|
      requires |pubs| == |PathLevels(was, leaf)| && fdp == PathNodes(leaf, PathLevels(was, leaf))
      requires nodes == PathState(was, leaf, pubs, |pubs|, |pubs|)
      modifies this
      ensures nodes == PathState(was, leaf, pubs, |pubs|, 0)
    {
      var i := |fdp|;
      while i > 0
        invariant 0 <= i <= |fdp| && nodes == PathState(was, leaf, pubs, |pubs|, i)
      {
        i := i - 1;
        StateHash(was, leaf, pubs, i);
        LevelRank(was, leaf, Height(was), i);
        HashNext(was, leaf, pubs, PathLevels(was, leaf)[i], i + 1);
        var hash := Empty;
        if i < |fdp| - 1 { hash := HashFrom(leaf, pubs, fdp[i + 1], fdp[i], was, i); }
        nodes := nodes[fdp[i] := ParentSlot(nodes[fdp[i]].parent.(parentHash := hash))];
      }
    }

    method HashFrom(leaf: nat, ghost pubs: seq<PublicKey>, parent: nat, p: nat, ghost was: Nodes, ghost i: nat)
      returns (hash: Term)
      requires Complete(was) && LeafCount(was) <= MAX_LEAVES && 2 * leaf < |was|
      requires i + 1 < |PathLevels(was, leaf)| == |pubs| && nodes == PathState(was, leaf, pubs, |pubs|, i + 1)
      requires p == AncestorOf(leaf, PathLevels(was, leaf)[i])
      requires parent == AncestorOf(leaf, PathLevels(was, leaf)[i + 1])
      ensures var h := PathLevels(was, leaf)[i + 1];
              hash == ParentHash(pubs[i + 1], HashAbove(was, leaf, pubs, h, Height(was)), SiblingHash(was, leaf, h))
    {
      NodeHashIs(was, leaf, pubs, i);
      var s := CopathChild(parent, p, leaf, PathLevels(was, leaf)[i], PathLevels(was, leaf)[i + 1]);
      hash := ParentHashFor(parent, s);
    }

    /** Parent hash for the sender's leaf once its path is installed. */
    method LeafParentHashFor(leaf: nat, fdp: seq<nat>, ghost pubs: seq<PublicKey>, ghost was: Nodes)
      returns (hash: Term)
      requires Complete(was) && LeafCount(was) <= MAX_LEAVES && 2 * leaf < |was|
      requires |pubs| == |PathLevels(was, leaf)| && fdp == PathNodes(leaf, PathLevels(was, leaf))
      requires nodes == Installed(was, leaf, pubs)
      ensures hash == LeafParentHash(was, leaf, pubs)
    {
      LeafHashIs(was, leaf, pubs);
      if |fdp| == 0 { return Empty; }
      LeafAncestor(leaf);
      var s := CopathChild(fdp[0], 2 * leaf, leaf, 0, PathLevels(was, leaf)[0]);
      hash := ParentHashFor(fdp[0], s);
    }

    method Merge(leaf: nat, up: UpdatePath) returns (ok: bool)
      requires Valid() && 2 * leaf < |nodes|
      modifies this
      ensures ok <==> |up.nodes| == |PathLevels(old(nodes), leaf)|
      ensures nodes == if ok then Merged(old(nodes), leaf, GroupOps.Keys(up.nodes), up.leaf) else old(nodes)
    {
      var pubs := CollectKeys(up.nodes);
      var installed := InstallPath(leaf, pubs);
      if installed.None? { return false; }
      nodes := nodes[2 * leaf := LeafSlot(up.leaf)];
      ok := true;
    }

    /** The first ciphertext of one path node the receiver can open: entries added by the same commit
        have none, every other entry has one in order. */
    method OpenNode(res: seq<nat>, omitted: set<nat>, node: PathNode, priv: map<nat, PrivateKey>, gc: GroupContext)
      returns (hit: bool, secret: Option<Term>)
      ensures var entries := Without(res, omitted); var h := FirstHeld(entries, priv);
              && (hit <==> h < |entries| && h < |node.secrets|)
              && (hit ==> secret == Decrypt(priv[entries[h]], gc, node.secrets[h]))
    {
      hit, secret := false, None;
      var index, j := 0, 0;
      ghost var entries := Without(res, omitted);
      while j < |res|
        invariant 0 <= j <= |res| && 0 <= index <= |entries| && !hit
        invariant entries[index..] == Without(res[j..], omitted)
        invariant FirstHeld(entries, priv) == index + FirstHeld(entries[index..], priv)
      {
        assert res[j..][0] == res[j] && res[j..][1..] == res[j + 1..];
        if res[j] !in omitted {
          assert entries[index] == res[j] && entries[index..][1..] == entries[index + 1..];
          if res[j] in priv {
            if index >= |node.secrets| { return; }
            return true, Decrypt(priv[res[j]], gc, node.secrets[index]);
          }
          index := index + 1;
        }
        j := j + 1;
      }
    }

    /** What the k-th path node's secret is sealed to, before leaving out the newly added. */
    method CopathResolutionAt(leaf: nat, p: nat, ghost k: nat, ghost omitted: set<nat>) returns (res: seq<nat>)
      requires Valid() && 2 * leaf < |nodes| && k < |PathLevels(nodes, leaf)|
      requires p == AncestorOf(leaf, PathLevels(nodes, leaf)[k])
      ensures Without(res, omitted) == RecipientLists(nodes, leaf, omitted)[k]
    {
      LeafAncestor(leaf);
      LevelRank(nodes, leaf, Height(nodes), k);
      var s := CopathChild(p, 2 * leaf, leaf, 0, PathLevels(nodes, leaf)[k]);
      res := ResolutionOf(s);
    }

    method ProcessUpdatePath(leaf: nat, path: seq<PathNode>, priv: map<nat, PrivateKey>, gc: GroupContext,
                             newlyAdded: seq<nat>) returns (o: Opening)
      requires Valid() && 2 * leaf < |nodes|
      ensures o == Process(nodes, leaf, path, priv, gc, OmittedEntries(newlyAdded))
    {
      var fdp := FilteredDirectPath(leaf);
      if |fdp| != |path| { return PathError; }
      var omitted := CollectEntries(newlyAdded);
      ghost var lists := RecipientLists(nodes, leaf, omitted);
      var k := 0;
      while k < |fdp|
        invariant 0 <= k <= |fdp| && FindSecret(lists, path, priv, gc, k) == FindSecret(lists, path, priv, gc, 0)
      {
        var res := CopathResolutionAt(leaf, fdp[k], k, omitted);
        var hit, secret := OpenNode(res, omitted, path[k], priv, gc);
        if hit {
          if secret.None? { return PathError; }
          var commitSecret := DeriveToRoot(path, secret.value, k);
          if commitSecret.None? { return PathError; }
          return Opened(secret.value, commitSecret.value);
        }
        k := k + 1;
      }
      o := NoSecret;
    }

    /** Exactly one orientation of every populated parent's children matches. */
    method VerifyParentHashes() returns (ok: bool)
      requires Valid()
      ensures ok == GroupOps.VerifyParentHashes(nodes)
    {
      VerifiedAll(nodes);
      var i := 0;
      while i < |nodes|
        invariant 0 <= i <= |nodes| && VerifiedTo(nodes, i)
      {
        ok := OneOrientation(i);
        if !ok { return; }
        i := i + 1;
      }
      ok := true;
    }

    method OneOrientation(i: nat) returns (ok: bool)
      requires Valid() && i < |nodes|
      ensures ok <==> ParentVerified(nodes, i)
    {
      if !nodes[i].ParentSlot? { return true; }
      var l := Left(i);
      if l.None? { return false; }
      NodeChildren(nodes, i);
      var r := Right(i, LeafCount(nodes));
      ghost var k, j := Level(i) - 1, Position(i);
      var okL := HasParentHashMatch(i, l.value, r.value, k, 2 * j, 2 * j + 1);
      var okR := HasParentHashMatch(i, r.value, l.value, k, 2 * j + 1, 2 * j);
      ok := okL != okR;
    }

    method HasParentHashMatch(p: nat, c: nat, s: nat, ghost k: nat, ghost cj: nat, ghost sj: nat) returns (ok: bool)
      requires Valid() && p < |nodes| && c < |nodes| && s < |nodes| && nodes[p].ParentSlot?
      requires c == Index(k, cj) && s == Index(k, sj)
      ensures ok == Matches(nodes, nodes[p].parent, k, cj, sj)
    {
      IndexCoordinates(k, cj);
      IndexCoordinates(k, sj);
      var want := ParentHashFor(p, s);
      var res := ResolutionOf(c);
      var expected := ExpectedBelow(nodes[p].parent.unmerged, c);
      assert expected == UnmergedBelow(nodes[p].parent, k, cj);
      var i := 0;
      while i < |res|
        invariant 0 <= i <= |res|
        invariant forall j | 0 <= j < i :: !MatchAt(nodes, nodes[p].parent, k, cj, sj, res[j])
      {
        if StoredHash(SlotAt(nodes, res[i])) == Some(want) {
          var actual := CollectBut(res, res[i]);
          if actual == expected { return true; }
        }
        i := i + 1;
      }
      ok := false;
    }

    /** A fresh path from the leaf secret, installed in place; None when the sender's leaf, or a node
        to encrypt to, is blank, with the tree untouched. */
    method GenerateUpdatePath(leaf: nat, leafSecret: Term, signer: nat, groupId: nat, newlyAdded: seq<nat>,
                              base: GroupContext) returns (g: Option<Generated>)
      requires Valid() && 2 * leaf < |nodes|
      modifies this
      ensures g.None? <==>
              !old(nodes)[2 * leaf].LeafSlot? || BlankRecipient(old(nodes), leaf, OmittedEntries(newlyAdded))
      ensures if g.None? then nodes == old(nodes)
              else
                nodes == g.value.nodes &&
                g == Generate(old(nodes), leaf, leafSecret, signer, groupId, OmittedEntries(newlyAdded), base)
    {
      IndexStep(0, leaf);
      if !nodes[2 * leaf].LeafSlot? { return None; }
      var orig := nodes[2 * leaf].leaf.body;
      var fdp := FilteredDirectPath(leaf);
      var omitted := CollectEntries(newlyAdded);
      var secrets, commitSecret := RatchetSecrets(leafSecret, |fdp|);
      var pubs := PublicKeysOf(leafSecret, secrets);
      var to := RecipientKeys(leaf, fdp, omitted);
      if to.None? { return None; }
      ghost var was := nodes;
      var installed := InstallPath(leaf, pubs);
      var hash := LeafParentHashFor(leaf, fdp, pubs, was);
      var ln := SignLeaf(signer,
        LeafBody(PublicKey(NodeSeed(leafSecret)), orig.sigKey, orig.credential, CommitSource(hash)), groupId, leaf);
      nodes := nodes[2 * leaf := LeafSlot(ln)];
      assert nodes == PathTree(was, leaf, leafSecret, signer, groupId);
      var treeHash := RootTreeHash();
      var gc := base.(treeHash := treeHash);
      var path := SealAll(leafSecret, secrets, to.value, gc, was, leaf, omitted);
      var byNode := SecretMap(leafSecret, fdp, secrets, was, leaf);
      g := Some(Generated(nodes, UpdatePath(ln, path), commitSecret, byNode));
    }

    /** Public keys each path node's secret is sealed to, in resolution order. */
    method RecipientKeys(leaf: nat, fdp: seq<nat>, omitted: set<nat>) returns (to: Option<seq<seq<PublicKey>>>)
      requires Valid() && 2 * leaf < |nodes| && fdp == PathNodes(leaf, PathLevels(nodes, leaf))
      ensures to.None? <==> BlankRecipient(nodes, leaf, omitted)
      ensures to.Some? ==> KeyLists(nodes, leaf, omitted, to.value, |fdp|)
    {
      var out: seq<seq<PublicKey>> := [];
      ghost var lists := RecipientLists(nodes, leaf, omitted);
      var k := 0;
      while k < |fdp|
        invariant 0 <= k <= |fdp| && KeyLists(nodes, leaf, omitted, out, k)
        invariant forall i | 0 <= i < k :: !AnyBlank(nodes, lists[i])
      {
        var res := CopathResolutionAt(leaf, fdp[k], k, omitted);
        var keys := EntryKeys(nodes, res, omitted);
        if keys.None? { return None; }
        KeyListsSnoc(nodes, leaf, omitted, out, keys.value, k);
        out := out + [keys.value];
        k := k + 1;
      }
      to := Some(out);
    }
  }

  predicate ParentVerified(nodes: Nodes, i: nat)
    requires i < |nodes|
  {
    nodes[i].ParentSlot? ==> Level(i) > 0 && HashOk(nodes, nodes[i].parent, Level(i) - 1, Position(i))
  }

  predicate VerifiedTo(nodes: Nodes, n: nat)
    requires n <= |nodes|
  {
    forall i | 0 <= i < n :: ParentVerified(nodes, i)
  }

  lemma VerifiedAll(nodes: Nodes)
    ensures VerifiedTo(nodes, |nodes|) <==> GroupOps.VerifyParentHashes(nodes)
  {
    if GroupOps.VerifyParentHashes(nodes) {
      forall i | 0 <= i < |nodes| ensures ParentVerified(nodes, i) {}
    }
    if VerifiedTo(nodes, |nodes|) {
      forall i | 0 <= i < |nodes| && nodes[i].ParentSlot?
        ensures Level(i) > 0 && HashOk(nodes, nodes[i].parent, Level(i) - 1, Position(i))
      {
        assert ParentVerified(nodes, i);
      }
    }
  }

  /** Some entry that should get a ciphertext has no key. */
  predicate AnyBlank(nodes: Nodes, entries: seq<nat>) {
    exists d | d in entries :: SlotAt(nodes, d).Blank?
  }

  predicate BlankRecipient(nodes: Nodes, L: nat, omitted: set<nat>) {
    exists i | 0 <= i < |RecipientLists(nodes, L, omitted)| :: AnyBlank(nodes, RecipientLists(nodes, L, omitted)[i])
  }

  function KeysAt(nodes: Nodes, entries: seq<nat>): (r: seq<PublicKey>)
    ensures |r| == |entries|
  {
    seq(|entries|, i requires 0 <= i < |entries| => SlotKey(SlotAt(nodes, entries[i])))
  }

  ghost predicate KeyLists(nodes: Nodes, L: nat, omitted: set<nat>, to: seq<seq<PublicKey>>, n: nat) {
    && |to| == n <= |RecipientLists(nodes, L, omitted)|
    && forall i | 0 <= i < n :: to[i] == KeysAt(nodes, RecipientLists(nodes, L, omitted)[i])
  }

  lemma KeyListsSnoc(nodes: Nodes, L: nat, omitted: set<nat>, to: seq<seq<PublicKey>>, keys: seq<PublicKey>, k: nat)
    requires KeyLists(nodes, L, omitted, to, k) && k < |RecipientLists(nodes, L, omitted)|
    requires keys == KeysAt(nodes, RecipientLists(nodes, L, omitted)[k])
    ensures KeyLists(nodes, L, omitted, to + [keys], k + 1)
  {
  }

  method EntryKeys(nodes: Nodes, res: seq<nat>, omitted: set<nat>) returns (keys: Option<seq<PublicKey>>)
    ensures keys.None? <==> AnyBlank(nodes, Without(res, omitted))
    ensures keys.Some? ==> keys.value == KeysAt(nodes, Without(res, omitted))
  {
    ghost var entries := Without(res, omitted);
    var out: seq<PublicKey> := [];
    var j := 0;
    while j < |res|
      invariant 0 <= j <= |res| && |out| <= |entries| && out == KeysAt(nodes, entries[..|out|])
      invariant entries[|out|..] == Without(res[j..], omitted)
      invariant forall h | 0 <= h < |out| :: !SlotAt(nodes, entries[h]).Blank?
    {
      assert res[j..][0] == res[j] && res[j..][1..] == res[j + 1..];
      if res[j] !in omitted {
        assert entries[|out|] == res[j] && entries[|out|..][1..] == entries[|out| + 1..];
        if SlotAt(nodes, res[j]).Blank? { return None; }
        assert entries[..|out| + 1] == entries[..|out|] + [res[j]];
        out := out + [SlotKey(SlotAt(nodes, res[j]))];
      }
      j := j + 1;
    }
    assert entries[|out|..] == [] && entries[..|out|] == entries;
    keys := Some(out);
  }

  function PathSecrets(leafSecret: Term, n: nat): (r: seq<Term>)
    ensures |r| == n
  {
    seq(n, i requires 0 <= i < n => PathSecret(leafSecret, i + 1))
  }

  method RatchetSecrets(leafSecret: Term, n: nat) returns (secrets: seq<Term>, commitSecret: Term)
    ensures secrets == PathSecrets(leafSecret, n) && commitSecret == PathSecret(leafSecret, n + 1)
  {
    secrets := [];
    var last, k := leafSecret, 0;
    while k < n
      invariant 0 <= k <= n && secrets == PathSecrets(leafSecret, k) && last == PathSecret(leafSecret, k)
    {
      last := Derived(last, PathLabel);
      secrets := secrets + [last];
      k := k + 1;
    }
    commitSecret := Derived(last, PathLabel);
  }

  method PublicKeysOf(ghost leafSecret: Term, secrets: seq<Term>) returns (pubs: seq<PublicKey>)
    requires secrets == PathSecrets(leafSecret, |secrets|)
    ensures pubs == PathKeys(leafSecret, |secrets|)
  {
    pubs := [];
    var k := 0;
    while k < |secrets|
      invariant 0 <= k <= |secrets| && pubs == PathKeys(leafSecret, k)
    {
      pubs := pubs + [PublicKey(NodeSeed(secrets[k]))];
      k := k + 1;
    }
  }

  method SealTo(keys: seq<PublicKey>, gc: GroupContext, secret: Term) returns (cts: seq<Ciphertext>)
    ensures |cts| == |keys| && forall i | 0 <= i < |keys| :: cts[i] == Ciphertext(keys[i], gc, secret)
  {
    cts := [];
    var i := 0;
    while i < |keys|
      invariant 0 <= i <= |keys| && |cts| == i && forall j | 0 <= j < i :: cts[j] == Ciphertext(keys[j], gc, secret)
    {
      cts := cts + [Ciphertext(keys[i], gc, secret)];
      i := i + 1;
    }
  }

  method SealAll(ghost leafSecret: Term, secrets: seq<Term>, to: seq<seq<PublicKey>>, gc: GroupContext,
                 ghost was: Nodes, ghost leaf: nat, ghost omitted: set<nat>)
    returns (path: seq<PathNode>)
    requires secrets == PathSecrets(leafSecret, |secrets|) && |secrets| == |PathLevels(was, leaf)|
    requires KeyLists(was, leaf, omitted, to, |secrets|)
    ensures path == PathNodesFor(was, leaf, leafSecret, omitted, gc, PathLevels(was, leaf))
  {
    path := [];
    var k := 0;
    while k < |secrets|
      invariant 0 <= k <= |secrets| && SealedTo(was, leaf, leafSecret, omitted, gc, path, k)
    {
      var cts := SealTo(to[k], gc, secrets[k]);
      SealedNode(was, leaf, leafSecret, omitted, gc, k, cts);
      path := path + [PathNode(PublicKey(NodeSeed(secrets[k])), cts)];
      k := k + 1;
    }
    SealedAll(was, leaf, leafSecret, omitted, gc, path);
  }

  lemma SealedAll(was: Nodes, L: nat, leafSecret: Term, omitted: set<nat>, gc: GroupContext, path: seq<PathNode>)
    requires |path| == |PathLevels(was, L)|
    requires SealedTo(was, L, leafSecret, omitted, gc, path, |path|)
    ensures path == PathNodesFor(was, L, leafSecret, omitted, gc, PathLevels(was, L))
  {
  }

  ghost predicate SealedTo(was: Nodes, L: nat, leafSecret: Term, omitted: set<nat>, gc: GroupContext,
                           path: seq<PathNode>, k: nat) {
    && |path| == k <= |PathLevels(was, L)|
    && forall i | 0 <= i < k ::
         PathLevels(was, L)[i] > 0 && path[i] == PathNodeAt(was, L, leafSecret, omitted, gc, PathLevels(was, L)[i])
  }

  lemma SealedNode(was: Nodes, L: nat, leafSecret: Term, omitted: set<nat>, gc: GroupContext, k: nat,
                   cts: seq<Ciphertext>)
    requires k < |PathLevels(was, L)|
    requires var keys, secret := KeysAt(was, RecipientLists(was, L, omitted)[k]), PathSecret(leafSecret, k + 1);
             |cts| == |keys| && forall i | 0 <= i < |keys| :: cts[i] == Ciphertext(keys[i], gc, secret)
    ensures var h := PathLevels(was, L)[k];
            h > 0 && PathNode(PublicKey(NodeSeed(PathSecret(leafSecret, k + 1))), cts) ==
              PathNodeAt(was, L, leafSecret, omitted, gc, h)
  {
    var h, secret := PathLevels(was, L)[k], PathSecret(leafSecret, k + 1);
    LevelRank(was, L, Height(was), k);
    var entries := Recipients(was, L, h, omitted);
    assert entries == RecipientLists(was, L, omitted)[k];
    assert cts == Sealed(was, entries, gc, secret);
  }

  method SecretMap(ghost leafSecret: Term, fdp: seq<nat>, secrets: seq<Term>, ghost was: Nodes, ghost leaf: nat)
    returns (m: map<nat, Term>)
    requires secrets == PathSecrets(leafSecret, |secrets|) && fdp == PathNodes(leaf, PathLevels(was, leaf))
    requires |fdp| == |secrets|
    ensures m == SecretsByNode(was, leaf, leafSecret)
  {
    m := map[];
    var k := 0;
    assert m == SecretsTo(was, leaf, leafSecret, 0);
    while k < |fdp|
      invariant 0 <= k <= |fdp| && m == SecretsTo(was, leaf, leafSecret, k)
    {
      SecretsSnoc(was, leaf, leafSecret, k);
      m := m[fdp[k] := secrets[k]];
      k := k + 1;
    }
    assert PathLevels(was, leaf)[..k] == PathLevels(was, leaf);
  }

  ghost function SecretsTo(was: Nodes, L: nat, leafSecret: Term, k: nat): map<nat, Term>
    requires k <= |PathLevels(was, L)|
  {
    map x | x in NodesOf(L, PathLevels(was, L)[..k]) :: PathSecret(leafSecret, Rank(was, L, Level(x)))
  }

  lemma SecretsSnoc(was: Nodes, L: nat, leafSecret: Term, k: nat)
    requires k < |PathLevels(was, L)|
    ensures var x := AncestorOf(L, PathLevels(was, L)[k]);
            SecretsTo(was, L, leafSecret, k + 1) == SecretsTo(was, L, leafSecret, k)[x := PathSecret(leafSecret, k + 1)]
  {
    var h := PathLevels(was, L)[k];
    LevelRank(was, L, Height(was), k);
    IndexCoordinates(h, Shr(L, h));
    NodesOfSnoc(L, PathLevels(was, L), k);
  }

  lemma NodesOfSnoc(L: nat, levels: seq<nat>, k: nat)
    requires k < |levels|
    ensures NodesOf(L, levels[..k + 1]) == NodesOf(L, levels[..k]) + {AncestorOf(L, levels[k])}
  {
    var s, t := levels[..k], levels[..k + 1];
    forall x | x in NodesOf(L, s) ensures x in NodesOf(L, t) {
      var i :| 0 <= i < |s| && x == Index(s[i], Shr(L, s[i]));
      assert t[i] == s[i];
    }
    assert t[k] == levels[k];
    forall x | x in NodesOf(L, t) ensures x in NodesOf(L, s) || x == AncestorOf(L, levels[k]) {
      var i :| 0 <= i < |t| && x == Index(t[i], Shr(L, t[i]));
      if i < k { assert s[i] == t[i]; }
    }
  }

  method DeriveToRoot(path: seq<PathNode>, secret: Term, start: nat) returns (commitSecret: Option<Term>)
    requires start < |path|
    ensures commitSecret == DeriveUp(path, secret, start)
  {
    var cur, k := secret, start;
    while true
      invariant start <= k < |path| && DeriveUp(path, cur, k) == DeriveUp(path, secret, start)
      decreases |path| - k
    {
      if path[k].key != PublicKey(NodeSeed(cur)) { return None; }
      if k == |path| - 1 { return Some(Derived(cur, PathLabel)); }
      cur, k := Derived(cur, PathLabel), k + 1;
    }
  }

  method CollectEntries(leaves: seq<nat>) returns (s: set<nat>)
    ensures s == OmittedEntries(leaves)
  {
    s := {};
    var i := 0;
    while i < |leaves|
      invariant 0 <= i <= |leaves| && s == OmittedEntries(leaves[..i])
    {
      OmittedSnoc(leaves, i);
      s := s + {2 * leaves[i]};
      i := i + 1;
    }
    assert leaves[..i] == leaves;
  }

  lemma OmittedSnoc(leaves: seq<nat>, i: nat)
    requires i < |leaves|
    ensures OmittedEntries(leaves[..i + 1]) == OmittedEntries(leaves[..i]) + {2 * leaves[i]}
  {
    var s, t := leaves[..i], leaves[..i + 1];
    assert t == s + [leaves[i]];
    forall x | x in OmittedEntries(s) ensures x in OmittedEntries(t) {
      var L :| L in s && 2 * L == x;
      assert L in t;
    }
    assert leaves[i] in t;
  }

  method CollectBut(res: seq<nat>, d: nat) returns (s: set<nat>)
    ensures s == Entries(res) - {d}
  {
    s := {};
    var i := 0;
    while i < |res|
      invariant 0 <= i <= |res| && s == Entries(res[..i]) - {d}
    {
      assert res[..i + 1] == res[..i] + [res[i]];
      if res[i] != d { s := s + {res[i]}; }
      i := i + 1;
    }
    assert res[..i] == res;
  }

  /** The unmerged leaves in the span of node c, as array indices. */
  method ExpectedBelow(unmerged: seq<nat>, c: nat) returns (s: set<nat>)
    ensures s == set u | u in unmerged && Shr(u, Level(c)) == Position(c) :: Index(0, u)
  {
    s := {};
    CoordinatesIndex(c);
    var i := 0;
    while i < |unmerged|
      invariant 0 <= i <= |unmerged| && s == set u | u in unmerged[..i] && Shr(u, Level(c)) == Position(c) ::
                Index(0, u)
    {
      assert unmerged[..i + 1] == unmerged[..i] + [unmerged[i]];
      LeafInside(unmerged[i], Level(c), Position(c));
      IndexStep(0, unmerged[i]);
      if InSubtree(c, 2 * unmerged[i]) { s := s + {2 * unmerged[i]}; }
      i := i + 1;
    }
    assert unmerged[..i] == unmerged;
  }

  method CollectLeaves(leaves: seq<nat>) returns (s: set<nat>)
    ensures s == Leaves(leaves)
  {
    s := {};
    var i := 0;
    while i < |leaves|
      invariant 0 <= i <= |leaves| && s == Leaves(leaves[..i])
    {
      assert leaves[..i + 1] == leaves[..i] + [leaves[i]];
      s := s + {leaves[i]};
      i := i + 1;
    }
    assert leaves[..i] == leaves;
  }

  method CollectKeys(path: seq<PathNode>) returns (pubs: seq<PublicKey>)
    ensures pubs == GroupOps.Keys(path)
  {
    pubs := [];
    var k := 0;
    while k < |path|
      invariant 0 <= k <= |path| && pubs == GroupOps.Keys(path)[..k]
    {
      pubs := pubs + [path[k].key];
      k := k + 1;
    }
  }

  /** A parent node as it enters its tree hash: without the excluded leaves. */
  method ParentInput(slot: Slot, excluded: set<nat>) returns (parent: Option<ParentNode>)
    ensures parent == if slot.ParentSlot?
                      then Some(slot.parent.(unmerged := Without(slot.parent.unmerged, excluded)))
                      else None
  {
    if !slot.ParentSlot? { return None; }
    var kept := slot.parent.unmerged;
    if |excluded| > 0 { kept := FilterLeaves(kept, excluded); } else { WithoutNone(kept); }
    parent := Some(slot.parent.(unmerged := kept));
  }

  method DoubleAll(leaves: seq<nat>) returns (r: seq<nat>)
    ensures r == LeafIndices(leaves)
  {
    r := [];
    var h := 0;
    while h < |leaves|
      invariant 0 <= h <= |leaves| && r == LeafIndices(leaves)[..h]
    {
      r := r + [2 * leaves[h]];
      h := h + 1;
    }
  }

  method FilterLeaves(leaves: seq<nat>, excluded: set<nat>) returns (r: seq<nat>)
    ensures r == Without(leaves, excluded)
  {
    r := [];
    var i := 0;
    while i < |leaves|
      invariant 0 <= i <= |leaves| && Without(leaves, excluded) == r + Without(leaves[i..], excluded)
    {
      ghost var rest := Without(leaves[i + 1..], excluded);
      assert leaves[i..][1..] == leaves[i + 1..];
      assert r + ([leaves[i]] + rest) == r + [leaves[i]] + rest;
      if leaves[i] !in excluded { r := r + [leaves[i]]; }
      i := i + 1;
    }
  }

  /** Writing the leaf before blanking its path is writing it after. */
  lemma {:induction false} LeafFirst(nodes: Nodes, L: nat, s: Slot)
    requires 2 * L < |nodes|
    ensures BlankPath(nodes[2 * L := s], L) == BlankPath(nodes, L)[2 * L := s]
  {
    IndexCoordinates(0, L);
  }

  lemma {:induction false} MarkFirst(nodes: Nodes, L: nat, s: Slot)
    requires 2 * L < |nodes|
    ensures MarkUnmerged(nodes[2 * L := s], L) == MarkUnmerged(nodes, L)[2 * L := s]
  {
    IndexCoordinates(0, L);
  }

  ghost function MarkedTo(nodes: Nodes, L: nat, k: nat): (r: Nodes)
    ensures |r| == |nodes|
  {
    seq(|nodes|, i requires 0 <= i < |nodes| =>
      if OnPath(i, L) && Level(i) <= k then WithUnmerged(nodes[i], L) else nodes[i])
  }

  lemma {:induction false} MarkedStep(nodes: Nodes, L: nat, k: nat)
    requires AncestorOf(L, k + 1) < |nodes|
    ensures var p := AncestorOf(L, k + 1);
            MarkedTo(nodes, L, k)[p] == nodes[p] &&
              MarkedTo(nodes, L, k)[p := WithUnmerged(nodes[p], L)] == MarkedTo(nodes, L, k + 1)
  {
    var p := AncestorOf(L, k + 1);
    IndexCoordinates(k + 1, Shr(L, k + 1));
    forall i | 0 <= i < |nodes| && OnPath(i, L) && Level(i) == k + 1 ensures i == p { CoordinatesIndex(i); }
  }

  lemma {:induction false} MarkedAll(nodes: Nodes, L: nat)
    requires Complete(nodes)
    ensures MarkedTo(nodes, L, Height(nodes)) == MarkUnmerged(nodes, L)
  {
    forall i | 0 <= i < |nodes| ensures Level(i) <= Height(nodes) { LevelInWidth(nodes, i); }
  }

  lemma GrownValid(nodes: Nodes)
    requires Complete(nodes) && 2 * AddSlot(nodes) >= |nodes| && LeafCount(nodes) < MAX_LEAVES
    ensures Complete(Grown(nodes)) && LeafCount(Grown(nodes)) <= MAX_LEAVES
  {
    var K := Height(nodes);
    GrownWidth(nodes);
    Log2Width(K + 1);
    assert MAX_LEAVES == Pow2(31) by { assert Pow2(8) == 256; assert Pow2(16) == 65536; assert Pow2(24) == 0x100_0000; }
    if K >= 31 { Pow2Monotone(31, K); }
    Pow2Monotone(K + 1, 31);
  }

  lemma {:induction false} SameFirstBlank(a: Nodes, b: Nodes, L: nat)
    requires |a| <= |b| && a == b[..|a|] && forall i | |a| <= i < |b| :: b[i].Blank?
    ensures FirstBlankFrom(a, L) == FirstBlankFrom(b, L)
    decreases |a| - 2 * L
  {
    if 2 * L < |a| && !a[2 * L].Blank? { SameFirstBlank(a, b, L + 1); }
  }

  lemma RoomHolds(nodes: Nodes)
    requires Complete(nodes)
    ensures 2 * AddSlot(nodes) < |Room(nodes)|
  {
  }

  lemma {:induction false} ChildrenAt(k: nat, j: nat, H: nat)
    requires 0 < k <= H && j < Pow2(H - k)
    ensures Index(k - 1, 2 * j) < Width(H) && Index(k - 1, 2 * j + 1) < Width(H)
    ensures Level(Index(k - 1, 2 * j)) == k - 1 && Position(Index(k - 1, 2 * j)) == 2 * j
    ensures Level(Index(k - 1, 2 * j + 1)) == k - 1 && Position(Index(k - 1, 2 * j + 1)) == 2 * j + 1
  {
    assert Pow2(H - (k - 1)) == 2 * Pow2(H - k);
    InWidth(k - 1, 2 * j, H);
    InWidth(k - 1, 2 * j + 1, H);
    IndexCoordinates(k - 1, 2 * j);
    IndexCoordinates(k - 1, 2 * j + 1);
  }

  lemma {:induction false} NodeChildren(nodes: Nodes, i: nat)
    requires Complete(nodes) && i < |nodes| && Level(i) > 0
    ensures NodeWidth(LeafCount(nodes)) == |nodes|
    ensures var k, j := Level(i), Position(i);
            && LeftOf(i) == Some(Index(k - 1, 2 * j)) && Index(k - 1, 2 * j) < |nodes|
            && RightOf(i, LeafCount(nodes)) == Some(Index(k - 1, 2 * j + 1)) && Index(k - 1, 2 * j + 1) < |nodes|
            && Level(Index(k - 1, 2 * j)) == k - 1 && Position(Index(k - 1, 2 * j)) == 2 * j
            && Level(Index(k - 1, 2 * j + 1)) == k - 1 && Position(Index(k - 1, 2 * j + 1)) == 2 * j + 1
  {
    var k, j, H := Level(i), Position(i), Height(nodes);
    CoordinatesIndex(i);
    InWidth(k, j, H);
    ChildrenAt(k, j, H);
    CompleteChildren(k, j, H);
    assert LeafCount(nodes) == Pow2(H);
  }

  lemma RootAt(nodes: Nodes)
    requires Complete(nodes)
    ensures var root := Root(LeafCount(nodes)); root < |nodes| && Level(root) == Height(nodes) && Position(root) == 0
  {
    CompleteRange(Height(nodes), 0, Height(nodes));
    IndexCoordinates(Height(nodes), 0);
  }

  function PathNodes(L: nat, levels: seq<nat>): (r: seq<nat>)
    ensures |r| == |levels|
  {
    seq(|levels|, i requires 0 <= i < |levels| => AncestorOf(L, levels[i]))
  }

  lemma FilteredStep(nodes: Nodes, L: nat, k: nat)
    ensures PathNodes(L, FilteredLevels(nodes, L, k + 1)) ==
            PathNodes(L, FilteredLevels(nodes, L, k)) +
            if Resolution(nodes, k, Flip(Shr(L, k))) != [] then [AncestorOf(L, k + 1)] else []
  {
    var levels := FilteredLevels(nodes, L, k);
    assert PathNodes(L, levels + [k + 1]) == PathNodes(L, levels) + [AncestorOf(L, k + 1)];
    assert levels + [] == levels;
  }

  // ---------------------------------------------------------------- subtrees

  /** subtreeContains: y lies in the span of the subtree rooted at x. */
  predicate InSubtree(x: nat, y: nat) {
    First(x) <= y < x + Pow2(Level(x))
  }

  lemma {:induction false} AncestorInside(L: nat, g: nat, h: nat)
    requires g <= h
    ensures InSubtree(AncestorOf(L, h), AncestorOf(L, g))
    decreases h
  {
    var x := AncestorOf(L, h);
    IndexCoordinates(h, Shr(L, h));
    if g < h {
      AncestorInside(L, g, h - 1);
      PathChildSide(L, h);
      ChildSpans(x);
    }
  }

  /** L's ancestor one level down is the left or the right child. */
  lemma {:induction false} PathChildSide(L: nat, h: nat)
    requires h > 0
    ensures Level(AncestorOf(L, h)) == h
    ensures LeftBelow(AncestorOf(L, h)) == Index(h - 1, 2 * Shr(L, h))
    ensures RightBelow(AncestorOf(L, h)) == Index(h - 1, 2 * Shr(L, h) + 1)
    ensures AncestorOf(L, h - 1) ==
            if Shr(L, h - 1) % 2 == 0 then LeftBelow(AncestorOf(L, h)) else RightBelow(AncestorOf(L, h))
  {
    IndexCoordinates(h, Shr(L, h));
    assert Shr(L, h) == Shr(L, h - 1) / 2;
  }

  /** The left child holds L's lower ancestors exactly when L is on its side. */
  lemma {:induction false} LeftHolds(L: nat, g: nat, h: nat)
    requires g < h
    ensures Level(AncestorOf(L, h)) == h
    ensures InSubtree(LeftBelow(AncestorOf(L, h)), AncestorOf(L, g)) <==> Shr(L, h - 1) % 2 == 0
  {
    PathChildSide(L, h);
    AncestorInside(L, g, h - 1);
    ChildSpans(AncestorOf(L, h));
  }

  /** A leaf lies in the span of (k, c) exactly when c is its level-k ancestor. */
  lemma {:induction false} LeafInside(u: nat, k: nat, c: nat)
    ensures InSubtree(Index(k, c), 2 * u) <==> Shr(u, k) == c
  {
    AncestorInside(u, 0, k);
    LeafAncestor(u);
    IndexCoordinates(k, c);
    IndexCoordinates(k, Shr(u, k));
    if Shr(u, k) < c { SpansApart(k, Shr(u, k), c); } else if c < Shr(u, k) { SpansApart(k, c, Shr(u, k)); }
  }

  lemma {:induction false} SpansApart(k: nat, i: nat, j: nat)
    requires i < j
    ensures Index(k, i) + Pow2(k) <= Index(k, j) - Pow2(k) + 1
  {
    IndexClosedForm(k, i);
    IndexClosedForm(k, j);
    MulMonotone(i + 1, j, Pow2(k + 1));
    assert (i + 1) * Pow2(k + 1) == i * Pow2(k + 1) + Pow2(k + 1);
  }

  // ---------------------------------------------------------------- installing a path

  /** The path node at level h once the first `keyed` path nodes have keys and those from `hashed` on
      have parent hashes. */
  ghost function StateSlot(was: Nodes, L: nat, pubs: seq<PublicKey>, keyed: nat, hashed: nat, h: nat): Slot {
    if Filtered(was, L, h) && Rank(was, L, h) <= keyed
    then ParentSlot(ParentNode(KeyAt(was, L, pubs, h),
                               if Rank(was, L, h) > hashed then HashAbove(was, L, pubs, h, Height(was)) else Empty, []))
    else Blank
  }

  ghost function PathState(was: Nodes, L: nat, pubs: seq<PublicKey>, keyed: nat, hashed: nat): (r: Nodes)
    ensures |r| == |was|
  {
    seq(|was|, i requires 0 <= i < |was| =>
      if OnPath(i, L) then StateSlot(was, L, pubs, keyed, hashed, Level(i)) else was[i])
  }

  lemma {:induction false} PositionLevel(was: Nodes, L: nat, i: nat, h: nat)
    requires i < |PathLevels(was, L)| && 0 < h <= Height(was) && Filtered(was, L, h)
    ensures Rank(was, L, h) == i + 1 <==> h == PathLevels(was, L)[i]
  {
    LevelRank(was, L, Height(was), i);
    LevelListed(was, L, Height(was), h);
  }

  lemma StateStart(was: Nodes, L: nat, pubs: seq<PublicKey>, n: nat)
    ensures PathState(was, L, pubs, 0, n) == BlankPath(was, L)
  {
  }

  lemma StateEnd(was: Nodes, L: nat, pubs: seq<PublicKey>)
    requires Complete(was)
    ensures PathState(was, L, pubs, |PathLevels(was, L)|, 0) == Installed(was, L, pubs)
  {
    forall i | 0 <= i < |was| && OnPath(i, L)
      ensures StateSlot(was, L, pubs, |PathLevels(was, L)|, 0, Level(i)) == PathSlot(was, L, pubs, Level(i))
    {
      LevelInWidth(was, i);
      RankBound(was, L, Level(i), Height(was));
    }
  }

  /** Writing one path node moves from one state to the next. */
  lemma {:induction false} StateWrite(was: Nodes, L: nat, pubs: seq<PublicKey>, i: nat, a: nat, b: nat, c: nat, d: nat)
    requires Complete(was) && 2 * L < |was| && i < |PathLevels(was, L)|
    requires forall h: nat | 0 < h <= Height(was) && Filtered(was, L, h) && Rank(was, L, h) != i + 1 ::
               StateSlot(was, L, pubs, a, b, h) == StateSlot(was, L, pubs, c, d, h)
    ensures var h := PathLevels(was, L)[i]; var x := AncestorOf(L, h);
            && x < |was|
            && PathState(was, L, pubs, a, b)[x := StateSlot(was, L, pubs, c, d, h)] == PathState(was, L, pubs, c, d)
  {
    var h := PathLevels(was, L)[i];
    var x := AncestorOf(L, h);
    AncestorInRange(was, L, h);
    IndexCoordinates(h, Shr(L, h));
    forall y | 0 <= y < |was| && OnPath(y, L) && y != x
      ensures StateSlot(was, L, pubs, a, b, Level(y)) == StateSlot(was, L, pubs, c, d, Level(y))
    {
      LevelInWidth(was, y);
      CoordinatesIndex(y);
      if Filtered(was, L, Level(y)) { PositionLevel(was, L, i, Level(y)); }
    }
  }

  lemma StateKey(was: Nodes, L: nat, pubs: seq<PublicKey>, i: nat)
    requires Complete(was) && 2 * L < |was| && i < |PathLevels(was, L)| == |pubs|
    ensures var x := AncestorOf(L, PathLevels(was, L)[i]);
            && x < |was|
            && PathState(was, L, pubs, i, |pubs|)[x := ParentSlot(ParentNode(pubs[i], Empty, []))] ==
                 PathState(was, L, pubs, i + 1, |pubs|)
  {
    LevelRank(was, L, Height(was), i);
    StateWrite(was, L, pubs, i, i, |pubs|, i + 1, |pubs|);
  }

  lemma StateHash(was: Nodes, L: nat, pubs: seq<PublicKey>, i: nat)
    requires Complete(was) && 2 * L < |was| && i < |PathLevels(was, L)| == |pubs|
    ensures var h := PathLevels(was, L)[i]; var x := AncestorOf(L, h);
            && x < |was|
            && PathState(was, L, pubs, |pubs|, i + 1)[x] == ParentSlot(ParentNode(pubs[i], Empty, []))
            && PathState(was, L, pubs, |pubs|, i + 1)
                 [x := ParentSlot(ParentNode(pubs[i], HashAbove(was, L, pubs, h, Height(was)), []))]
               == PathState(was, L, pubs, |pubs|, i)
  {
    var h := PathLevels(was, L)[i];
    LevelRank(was, L, Height(was), i);
    AncestorInRange(was, L, h);
    IndexCoordinates(h, Shr(L, h));
    StateWrite(was, L, pubs, i, |pubs|, i + 1, |pubs|, i);
  }

  /** The node above the i-th path node that has a key and its final hash. */
  lemma {:induction false} StateAbove(was: Nodes, L: nat, pubs: seq<PublicKey>, i: nat)
    requires Complete(was) && 2 * L < |was| && i + 1 < |PathLevels(was, L)| == |pubs|
    ensures var h := PathLevels(was, L)[i + 1]; var x := AncestorOf(L, h);
            && x < |was|
            && PathState(was, L, pubs, |pubs|, i + 1)[x] ==
               ParentSlot(ParentNode(pubs[i + 1], HashAbove(was, L, pubs, h, Height(was)), []))
  {
    var h := PathLevels(was, L)[i + 1];
    LevelRank(was, L, Height(was), i + 1);
    AncestorInRange(was, L, h);
    IndexCoordinates(h, Shr(L, h));
  }

  lemma {:induction false} StateOff(was: Nodes, L: nat, pubs: seq<PublicKey>, keyed: nat, hashed: nat)
    requires Complete(was) && 2 * L < |was|
    ensures SameOff(was, PathState(was, L, pubs, keyed, hashed), L)
  {
    var now := PathState(was, L, pubs, keyed, hashed);
    forall k: nat, j: nat | Shr(L, k) != j ensures At(was, k, j) == At(now, k, j) { IndexCoordinates(k, j); }
  }

  /** Between two neighbouring path levels no hash is passed on; above the last there is none. */
  lemma {:induction false} HashSkips(was: Nodes, L: nat, pubs: seq<PublicKey>, g: nat, h: nat, H: nat)
    requires g <= h <= H && forall m: nat | g < m <= h :: !Filtered(was, L, m)
    ensures HashAbove(was, L, pubs, g, H) == HashAbove(was, L, pubs, h, H)
    decreases h - g
  {
    if g < h { HashSkips(was, L, pubs, g + 1, h, H); }
  }

  lemma {:induction false} NoneBetween(was: Nodes, L: nat, g: nat, h: nat)
    requires g <= h && Rank(was, L, g) == Rank(was, L, h)
    ensures forall m: nat | g < m <= h :: !Filtered(was, L, m)
  {
    forall m: nat | g < m <= h ensures !Filtered(was, L, m) {
      RankBound(was, L, g, m - 1);
      RankBound(was, L, m, h);
    }
  }

  lemma {:induction false} HashEnds(was: Nodes, L: nat, pubs: seq<PublicKey>, g: nat)
    requires g <= Height(was) && Rank(was, L, g) == Rank(was, L, Height(was))
    ensures HashAbove(was, L, pubs, g, Height(was)) == Empty
  {
    NoneBetween(was, L, g, Height(was));
    HashSkips(was, L, pubs, g, Height(was), Height(was));
  }

  /** From level g up, the next path node, the i-th, is the only one that counts. */
  lemma {:induction false} HashNext(was: Nodes, L: nat, pubs: seq<PublicKey>, g: nat, i: nat)
    requires i <= |PathLevels(was, L)| == |pubs| && g <= Height(was) && Rank(was, L, g) == i
    ensures var H := Height(was);
            if i == |pubs| then HashAbove(was, L, pubs, g, H) == Empty
            else var h := PathLevels(was, L)[i];
                 g < h && HashAbove(was, L, pubs, g, H) ==
                   ParentHash(pubs[i], HashAbove(was, L, pubs, h, H), SiblingHash(was, L, h))
  {
    var H := Height(was);
    if i == |pubs| {
      HashEnds(was, L, pubs, g);
    } else {
      var h := PathLevels(was, L)[i];
      LevelRank(was, L, H, i);
      if h <= g { RankBound(was, L, h, g); }
      assert Rank(was, L, h - 1) == i;
      NoneBetween(was, L, g, h - 1);
      HashSkips(was, L, pubs, g, h - 1, H);
    }
  }

  lemma StateSibling(was: Nodes, L: nat, pubs: seq<PublicKey>, hashed: nat, h: nat)
    requires Complete(was) && 2 * L < |was| && 0 < h
    ensures TreeHash(PathState(was, L, pubs, |pubs|, hashed), h - 1, Flip(Shr(L, h - 1)), Leaves([])) ==
            SiblingHash(was, L, h)
  {
    var now := PathState(was, L, pubs, |pubs|, hashed);
    StateOff(was, L, pubs, |pubs|, hashed);
    CopathOff(L, h);
    OffPathBelow(was, now, L, h - 1, Flip(Shr(L, h - 1)));
    assert Leaves([]) == {};
    TreeHashFrame(was, now, h - 1, Flip(Shr(L, h - 1)), {});
  }

  lemma StateFirst(was: Nodes, L: nat, pubs: seq<PublicKey>)
    requires Complete(was) && 2 * L < |was| && 0 < |PathLevels(was, L)| == |pubs|
    ensures var h := PathLevels(was, L)[0]; var x := AncestorOf(L, h);
            && x < |was|
            && PathState(was, L, pubs, |pubs|, 0)[x] ==
                 ParentSlot(ParentNode(pubs[0], HashAbove(was, L, pubs, h, Height(was)), []))
  {
    var h := PathLevels(was, L)[0];
    LevelRank(was, L, Height(was), 0);
    AncestorInRange(was, L, h);
    IndexCoordinates(h, Shr(L, h));
  }

  /** What hashing at the (i + 1)-st path node gives while the path is being hashed. */
  lemma NodeHashIs(was: Nodes, L: nat, pubs: seq<PublicKey>, i: nat)
    requires Complete(was) && 2 * L < |was| && i + 1 < |PathLevels(was, L)| == |pubs|
    ensures var g, h, now := PathLevels(was, L)[i], PathLevels(was, L)[i + 1], PathState(was, L, pubs, |pubs|, i + 1);
            var x := AncestorOf(L, h);
            && 0 < g < h <= Height(was) && x < |now| && now[x].ParentSlot?
            && ParentHashOf(now, now[x].parent, h - 1, Flip(Shr(L, h - 1))) ==
               ParentHash(pubs[i + 1], HashAbove(was, L, pubs, h, Height(was)), SiblingHash(was, L, h))
  {
    LevelRank(was, L, Height(was), i);
    LevelRank(was, L, Height(was), i + 1);
    HashNext(was, L, pubs, PathLevels(was, L)[i], i + 1);
    StateAbove(was, L, pubs, i);
    StateSibling(was, L, pubs, i + 1, PathLevels(was, L)[i + 1]);
  }

  lemma LeafHashIs(was: Nodes, L: nat, pubs: seq<PublicKey>)
    requires Complete(was) && 2 * L < |was| && |PathLevels(was, L)| == |pubs|
    ensures pubs == [] ==> LeafParentHash(was, L, pubs) == Empty
    ensures pubs != [] ==>
      var h, now := PathLevels(was, L)[0], Installed(was, L, pubs);
      var x := AncestorOf(L, h);
      && 0 < h <= Height(was) && x < |now| && now[x].ParentSlot?
      && ParentHashOf(now, now[x].parent, h - 1, Flip(Shr(L, h - 1))) == LeafParentHash(was, L, pubs)
  {
    HashNext(was, L, pubs, 0, 0);
    if pubs != [] {
      StateEnd(was, L, pubs);
      LevelRank(was, L, Height(was), 0);
      StateFirst(was, L, pubs);
      StateSibling(was, L, pubs, 0, PathLevels(was, L)[0]);
    }
  }
}
