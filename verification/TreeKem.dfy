/** Generating and processing an UpdatePath (mls/tree/treekem.go; sections 7.4 to 7.6 of RFC 9420). */
module TreeKem {
  import opened TreeMath
  import opened Symbolic
  import opened Ratchet
  import opened PathInstall
  import opened TreeInvariant
  import opened Coverage
  import opened ParentHashes

  /** r derivations along "path". */
  function PathSecret(leafSecret: Term, r: nat): Term {
    if r == 0 then leafSecret else Derived(PathSecret(leafSecret, r - 1), PathLabel)
  }

  /** Seed of the key pair of a node with this path secret. */
  function NodeSeed(pathSecret: Term): Term {
    Derived(pathSecret, NodeLabel)
  }

  function PathKeys(leafSecret: Term, n: nat): (keys: seq<PublicKey>)
    ensures |keys| == n
    ensures forall i :: 0 <= i < n ==> keys[i] == PublicKey(NodeSeed(PathSecret(leafSecret, i + 1)))
  {
    seq(n, i requires 0 <= i < n => PublicKey(NodeSeed(PathSecret(leafSecret, i + 1))))
  }

  /** Array indices of newly added leaves. */
  function OmittedEntries(newlyAdded: seq<nat>): set<nat> {
    set L | L in newlyAdded :: 2 * L
  }

  function SlotKey(slot: Slot): PublicKey {
    match slot
    case Blank => PublicKey(Empty)
    case LeafSlot(leaf) => leaf.body.key
    case ParentSlot(p) => p.key
  }

  /** Levels of L's filtered direct path, bottom-up. */
  function PathLevels(nodes: Nodes, L: nat): seq<nat> {
    FilteredLevels(nodes, L, Height(nodes))
  }

  /** Entries at level k that get a ciphertext. */
  function Recipients(nodes: Nodes, L: nat, k: nat, omitted: set<nat>): seq<nat>
    requires k > 0
  {
    Without(CopathResolution(nodes, L, k), omitted)
  }

  function Sealed(nodes: Nodes, entries: seq<nat>, gc: GroupContext, secret: Term): (cs: seq<Ciphertext>)
    ensures |cs| == |entries|
    ensures forall i :: 0 <= i < |cs| ==> cs[i] == Ciphertext(SlotKey(SlotAt(nodes, entries[i])), gc, secret)
  {
    seq(|entries|, i requires 0 <= i < |entries| => Ciphertext(SlotKey(SlotAt(nodes, entries[i])), gc, secret))
  }

  /** The level-k node of a generated path. */
  function PathNodeAt(nodes: Nodes, L: nat, leafSecret: Term, omitted: set<nat>, gc: GroupContext, k: nat): PathNode
    requires k > 0
  {
    var secret := PathSecret(leafSecret, Rank(nodes, L, k));
    PathNode(PublicKey(NodeSeed(secret)), Sealed(nodes, Recipients(nodes, L, k, omitted), gc, secret))
  }

  function PathNodesFor(nodes: Nodes, L: nat, leafSecret: Term, omitted: set<nat>, gc: GroupContext,
                        levels: seq<nat>): (r: seq<PathNode>)
    requires forall i :: 0 <= i < |levels| ==> levels[i] > 0
    ensures |r| == |levels|
    ensures forall i :: 0 <= i < |r| ==> r[i] == PathNodeAt(nodes, L, leafSecret, omitted, gc, levels[i])
  {
    seq(|levels|, i requires 0 <= i < |levels| => PathNodeAt(nodes, L, leafSecret, omitted, gc, levels[i]))
  }

  datatype Generated = Generated(nodes: Nodes, path: UpdatePath, commitSecret: Term, secrets: map<nat, Term>)

  function CommitLeaf(nodes: Nodes, L: nat, leafSecret: Term, signer: nat, groupId: nat): LeafNode
    requires At(nodes, 0, L).LeafSlot?
  {
    var orig := At(nodes, 0, L).leaf.body;
    var pubs := PathKeys(leafSecret, Rank(nodes, L, Height(nodes)));
    SignLeaf(signer,
             LeafBody(PublicKey(NodeSeed(leafSecret)), orig.sigKey, orig.credential,
               CommitSource(LeafParentHash(nodes, L, pubs))),
             groupId, L)
  }

  /** The tree after the path and the commit leaf are in place. */
  function PathTree(nodes: Nodes, L: nat, leafSecret: Term, signer: nat, groupId: nat): Nodes
    requires At(nodes, 0, L).LeafSlot?
  {
    Merged(nodes, L, PathKeys(leafSecret, Rank(nodes, L, Height(nodes))),
      CommitLeaf(nodes, L, leafSecret, signer, groupId))
  }

  /** Path secrets by node of the filtered direct path. */
  function SecretsByNode(nodes: Nodes, L: nat, leafSecret: Term): map<nat, Term> {
    map x | x in NodesOf(L, PathLevels(nodes, L)) :: PathSecret(leafSecret, Rank(nodes, L, Level(x)))
  }

  function NodesOf(L: nat, levels: seq<nat>): set<nat> {
    set i | 0 <= i < |levels| :: Index(levels[i], Shr(L, levels[i]))
  }

  /** GenerateUpdatePath; `base` is the provisional group context without its tree hash. */
  function Generate(nodes: Nodes, L: nat, leafSecret: Term, signer: nat, groupId: nat, omitted: set<nat>,
                    base: GroupContext): Option<Generated> {
    if !At(nodes, 0, L).LeafSlot? then None
    else
      var after := PathTree(nodes, L, leafSecret, signer, groupId);
      var gc := base.(treeHash := RootHash(after));
      var levels := PathLevels(nodes, L);
      Some(Generated(
        after,
        UpdatePath(CommitLeaf(nodes, L, leafSecret, signer, groupId),
          PathNodesFor(nodes, L, leafSecret, omitted, gc, levels)),
        PathSecret(leafSecret, Rank(nodes, L, Height(nodes)) + 1),
        SecretsByNode(nodes, L, leafSecret)))
  }

  // ---------------------------------------------------------------- levels and ranks

  /** The i-th filtered level is filtered and has rank i + 1. */
  lemma {:induction false} LevelRank(nodes: Nodes, L: nat, H: nat, i: nat)
    requires i < |FilteredLevels(nodes, L, H)|
    ensures
      var h := FilteredLevels(nodes, L, H)[i];
      0 < h <= H && Filtered(nodes, L, h) && Rank(nodes, L, h) == i + 1
  {
    if i < |FilteredLevels(nodes, L, H - 1)| { LevelRank(nodes, L, H - 1, i); }
  }

  lemma {:induction false} LevelListed(nodes: Nodes, L: nat, H: nat, h: nat)
    requires 0 < h <= H && Filtered(nodes, L, h)
    ensures
      var i := Rank(nodes, L, h) - 1;
      0 <= i < |FilteredLevels(nodes, L, H)| && FilteredLevels(nodes, L, H)[i] == h
  {
    if h < H {
      LevelListed(nodes, L, H - 1, h);
    }
  }

  // ---------------------------------------------------------------- processing

  datatype Opening = PathError | NoSecret | Opened(secret: Term, commitSecret: Term)

  /** Position of the first entry whose key is held, or the length. */
  function FirstHeld(entries: seq<nat>, priv: map<nat, PrivateKey>): (i: nat)
    ensures i <= |entries|
    ensures i < |entries| ==> entries[i] in priv
    ensures forall h :: 0 <= h < i ==> entries[h] !in priv
  {
    if entries == [] || entries[0] in priv then 0 else 1 + FirstHeld(entries[1..], priv)
  }

  /** A path-secret ciphertext for the receiver: path position, and the decryption's outcome. */
  datatype Hit = Miss | Hit(at: nat, secret: Option<Term>)

  /** First path position, from i on, whose recipients include a held key with a ciphertext. */
  function FindSecret(recipients: seq<seq<nat>>, path: seq<PathNode>, priv: map<nat, PrivateKey>, gc: GroupContext,
                      i: nat): (r: Hit)
    requires |recipients| == |path|
    ensures r.Hit? ==> r.at < |path|
    decreases |path| - i
  {
    if i >= |path| then Miss
    else
      var h := FirstHeld(recipients[i], priv);
      if h < |recipients[i]| && h < |path[i].secrets|
      then Hit(i, Decrypt(priv[recipients[i][h]], gc, path[i].secrets[h]))
      else FindSecret(recipients, path, priv, gc, i + 1)
  }

  /** Ratchet from position i to the top, checking each public key; the commit secret. */
  function DeriveUp(path: seq<PathNode>, secret: Term, i: nat): Option<Term>
    requires i < |path|
    decreases |path| - i
  {
    if path[i].key != PublicKey(NodeSeed(secret)) then None
    else if i == |path| - 1 then Some(Derived(secret, PathLabel))
    else DeriveUp(path, Derived(secret, PathLabel), i + 1)
  }

  /** Recipients of each node of the filtered direct path. */
  function RecipientLists(nodes: Nodes, L: nat, omitted: set<nat>): (r: seq<seq<nat>>)
    ensures |r| == |PathLevels(nodes, L)|
    ensures forall i :: 0 <= i < |r| ==>
            PathLevels(nodes, L)[i] > 0 && r[i] == Recipients(nodes, L, PathLevels(nodes, L)[i], omitted)
  {
    var levels := PathLevels(nodes, L);
    seq(|levels|, i requires 0 <= i < |levels| => Recipients(nodes, L, levels[i], omitted))
  }

  /** ProcessUpdatePath */
  function Process(nodes: Nodes, L: nat, path: seq<PathNode>, priv: map<nat, PrivateKey>, gc: GroupContext,
                   omitted: set<nat>): Opening {
    Open(RecipientLists(nodes, L, omitted), path, priv, gc)
  }

  function Open(recipients: seq<seq<nat>>, path: seq<PathNode>, priv: map<nat, PrivateKey>, gc: GroupContext): Opening {
    if |recipients| != |path| then PathError
    else
      match FindSecret(recipients, path, priv, gc, 0)
      case Miss => NoSecret
      case Hit(_, None) => PathError
      case Hit(i, Some(secret)) =>
        match DeriveUp(path, secret, i)
        case None => PathError
        case Some(commitSecret) => Opened(secret, commitSecret)
  }

  // ---------------------------------------------------------------- processing inverts generating

  predicate HoldsAny(entries: seq<nat>, priv: map<nat, PrivateKey>) {
    exists d | d in entries :: d in priv
  }

  lemma FirstHeldIn(entries: seq<nat>, priv: map<nat, PrivateKey>)
    ensures FirstHeld(entries, priv) < |entries| <==> HoldsAny(entries, priv)
  {
    if d :| d in entries && d in priv {
      var i :| 0 <= i < |entries| && entries[i] == d;
    }
    if FirstHeld(entries, priv) < |entries| {
      assert entries[FirstHeld(entries, priv)] in entries;
    }
  }

  /** Every recipient has a ciphertext, and every held key opens its own to the ratchet's secret. */
  ghost predicate Addressed(recipients: seq<seq<nat>>, path: seq<PathNode>, priv: map<nat, PrivateKey>,
                            gc: GroupContext, leafSecret: Term) {
    && |recipients| == |path|
    && (forall i :: 0 <= i < |path| ==> |path[i].secrets| == |recipients[i]|)
    && (forall i :: 0 <= i < |path| ==> path[i].key == PublicKey(NodeSeed(PathSecret(leafSecret, i + 1))))
    && (forall i, h :: 0 <= i < |path| && 0 <= h < |recipients[i]| && recipients[i][h] in priv ==>
          Decrypt(priv[recipients[i][h]], gc, path[i].secrets[h]) == Some(PathSecret(leafSecret, i + 1)))
  }

  lemma {:induction false} DeriveUpMeets(path: seq<PathNode>, leafSecret: Term, i: nat)
    requires i < |path|
    requires forall h :: 0 <= h < |path| ==> path[h].key == PublicKey(NodeSeed(PathSecret(leafSecret, h + 1)))
    ensures DeriveUp(path, PathSecret(leafSecret, i + 1), i) == Some(PathSecret(leafSecret, |path| + 1))
    decreases |path| - i
  {
    if i < |path| - 1 { DeriveUpMeets(path, leafSecret, i + 1); }
  }

  /** n is the first position from i on with a held key. */
  predicate FirstPosition(recipients: seq<seq<nat>>, priv: map<nat, PrivateKey>, i: nat, n: nat) {
    i <= n < |recipients| && HoldsAny(recipients[n], priv) && forall h :: i <= h < n ==> !HoldsAny(recipients[h], priv)
  }

  lemma {:induction false} FindAt(recipients: seq<seq<nat>>, path: seq<PathNode>, priv: map<nat, PrivateKey>,
                                  gc: GroupContext, leafSecret: Term, i: nat)
    requires Addressed(recipients, path, priv, gc, leafSecret) && i <= |path|
    ensures
      match FindSecret(recipients, path, priv, gc, i)
      case Miss => forall h :: i <= h < |path| ==> !HoldsAny(recipients[h], priv)
      case Hit(n, s) => s == Some(PathSecret(leafSecret, n + 1)) && FirstPosition(recipients, priv, i, n)
    decreases |path| - i
  {
    if i < |path| {
      FirstHeldIn(recipients[i], priv);
      if FirstHeld(recipients[i], priv) == |recipients[i]| { FindAt(recipients, path, priv, gc, leafSecret, i + 1); }
    }
  }

  /** What opening yields in terms of path positions. */
  ghost predicate OpenedAt(recipients: seq<seq<nat>>, priv: map<nat, PrivateKey>, leafSecret: Term, o: Opening) {
    match o
    case PathError => false
    case NoSecret => forall h :: 0 <= h < |recipients| ==> !HoldsAny(recipients[h], priv)
    case Opened(secret, commitSecret) =>
      && commitSecret == PathSecret(leafSecret, |recipients| + 1)
      && exists n: nat :: FirstPosition(recipients, priv, 0, n) && secret == PathSecret(leafSecret, n + 1)
  }

  lemma OpenMeets(recipients: seq<seq<nat>>, path: seq<PathNode>, priv: map<nat, PrivateKey>, gc: GroupContext,
                  leafSecret: Term)
    requires Addressed(recipients, path, priv, gc, leafSecret)
    ensures OpenedAt(recipients, priv, leafSecret, Open(recipients, path, priv, gc))
  {
    FindAt(recipients, path, priv, gc, leafSecret, 0);
    match FindSecret(recipients, path, priv, gc, 0)
    case Miss =>
    case Hit(n, _) => DeriveUpMeets(path, leafSecret, n);
  }

  /** The receiver holds the key of some entry at level k that got a ciphertext. */
  predicate Holds(nodes: Nodes, L: nat, priv: map<nat, PrivateKey>, omitted: set<nat>, k: nat) {
    0 < k <= Height(nodes) && Filtered(nodes, L, k) && HoldsAny(Recipients(nodes, L, k, omitted), priv)
  }

  /** Every key the receiver holds for a recipient entry is that entry's current key. */
  ghost predicate KeysCurrent(nodes: Nodes, L: nat, priv: map<nat, PrivateKey>, omitted: set<nat>) {
    forall k: nat, d :: 0 < k <= Height(nodes) && d in Recipients(nodes, L, k, omitted) && d in priv ==>
      priv[d].seed == SlotKey(SlotAt(nodes, d)).seed
  }

  /** Level k is the lowest one that holds something for the receiver. */
  ghost predicate HoldsFirst(nodes: Nodes, L: nat, priv: map<nat, PrivateKey>, omitted: set<nat>, k: nat) {
    Holds(nodes, L, priv, omitted, k) && forall h: nat :: h < k ==> !Holds(nodes, L, priv, omitted, h)
  }

  ghost predicate IsPath(nodes: Nodes, L: nat, leafSecret: Term, omitted: set<nat>, gc: GroupContext,
                         path: seq<PathNode>) {
    && |path| == |PathLevels(nodes, L)|
    && forall i :: 0 <= i < |path| ==>
         PathLevels(nodes, L)[i] > 0 &&
           path[i] == PathNodeAt(nodes, L, leafSecret, omitted, gc, PathLevels(nodes, L)[i])
  }

  lemma PathIsAddressed(nodes: Nodes, L: nat, leafSecret: Term, omitted: set<nat>, gc: GroupContext,
                        path: seq<PathNode>, priv: map<nat, PrivateKey>)
    requires IsPath(nodes, L, leafSecret, omitted, gc, path) && KeysCurrent(nodes, L, priv, omitted)
    ensures Addressed(RecipientLists(nodes, L, omitted), path, priv, gc, leafSecret)
  {
    var lists, levels, H := RecipientLists(nodes, L, omitted), PathLevels(nodes, L), Height(nodes);
    forall i | 0 <= i < |path|
      ensures |path[i].secrets| == |lists[i]| && path[i].key == PublicKey(NodeSeed(PathSecret(leafSecret, i + 1)))
      ensures forall h :: 0 <= h < |lists[i]| && lists[i][h] in priv ==>
                Decrypt(priv[lists[i][h]], gc, path[i].secrets[h]) == Some(PathSecret(leafSecret, i + 1))
    {
      LevelRank(nodes, L, H, i);
      NodeOpens(nodes, L, leafSecret, omitted, gc, priv, levels[i]);
    }
  }

  lemma NodeOpens(nodes: Nodes, L: nat, leafSecret: Term, omitted: set<nat>, gc: GroupContext,
                  priv: map<nat, PrivateKey>, k: nat)
    requires KeysCurrent(nodes, L, priv, omitted) && 0 < k <= Height(nodes)
    ensures
      var node, entries := PathNodeAt(nodes, L, leafSecret, omitted, gc, k), Recipients(nodes, L, k, omitted);
      forall h :: 0 <= h < |entries| && entries[h] in priv ==>
        Decrypt(priv[entries[h]], gc, node.secrets[h]) == Some(PathSecret(leafSecret, Rank(nodes, L, k)))
  {
    var entries := Recipients(nodes, L, k, omitted);
    forall h | 0 <= h < |entries| && entries[h] in priv
      ensures priv[entries[h]].seed == SlotKey(SlotAt(nodes, entries[h])).seed
    {
      assert entries[h] in entries;
    }
  }

  /** What processing yields in terms of levels: the sender's secrets from the lowest level that
      holds something for the receiver, or nothing (and no error) when no level does. */
  ghost predicate Outcome(nodes: Nodes, L: nat, leafSecret: Term, omitted: set<nat>, priv: map<nat, PrivateKey>,
                          o: Opening) {
    match o
    case PathError => false
    case NoSecret => forall k: nat :: !Holds(nodes, L, priv, omitted, k)
    case Opened(secret, commitSecret) =>
      && commitSecret == PathSecret(leafSecret, Rank(nodes, L, Height(nodes)) + 1)
      && exists k: nat :: HoldsFirst(nodes, L, priv, omitted, k) && secret == PathSecret(leafSecret, Rank(nodes, L, k))
  }

  lemma LevelsOutcome(nodes: Nodes, L: nat, leafSecret: Term, omitted: set<nat>, priv: map<nat, PrivateKey>, o: Opening)
    requires OpenedAt(RecipientLists(nodes, L, omitted), priv, leafSecret, o)
    ensures Outcome(nodes, L, leafSecret, omitted, priv, o)
  {
    var lists := RecipientLists(nodes, L, omitted);
    match o
    case NoSecret => NothingHeld(nodes, L, priv, omitted);
    case Opened(secret, _) =>
      var n: nat :| FirstPosition(lists, priv, 0, n) && secret == PathSecret(leafSecret, n + 1);
      FirstPositionLevel(nodes, L, priv, omitted, n);
  }

  /** A receiver whose held keys are current gets the sender's secrets iff it holds any
      recipient key. */
  lemma ProcessInvertsGenerate(nodes: Nodes, L: nat, leafSecret: Term, omitted: set<nat>, gc: GroupContext,
                               path: seq<PathNode>, priv: map<nat, PrivateKey>)
    requires IsPath(nodes, L, leafSecret, omitted, gc, path) && KeysCurrent(nodes, L, priv, omitted)
    ensures Outcome(nodes, L, leafSecret, omitted, priv, Process(nodes, L, path, priv, gc, omitted))
  {
    var lists := RecipientLists(nodes, L, omitted);
    PathIsAddressed(nodes, L, leafSecret, omitted, gc, path, priv);
    OpenMeets(lists, path, priv, gc, leafSecret);
    LevelsOutcome(nodes, L, leafSecret, omitted, priv, Open(lists, path, priv, gc));
  }

  lemma HeldLevelListed(nodes: Nodes, L: nat, priv: map<nat, PrivateKey>, omitted: set<nat>, k: nat)
    requires Holds(nodes, L, priv, omitted, k)
    ensures
      var i := Rank(nodes, L, k) - 1;
      0 <= i < |RecipientLists(nodes, L, omitted)| && HoldsAny(RecipientLists(nodes, L, omitted)[i], priv)
  {
    LevelListed(nodes, L, Height(nodes), k);
    var i, lists := Rank(nodes, L, k) - 1, RecipientLists(nodes, L, omitted);
    assert PathLevels(nodes, L)[i] == k;
    assert lists[i] == Recipients(nodes, L, k, omitted);
  }

  lemma NothingHeld(nodes: Nodes, L: nat, priv: map<nat, PrivateKey>, omitted: set<nat>)
    requires forall h :: 0 <= h < |RecipientLists(nodes, L, omitted)| ==>
             !HoldsAny(RecipientLists(nodes, L, omitted)[h], priv)
    ensures forall k: nat :: !Holds(nodes, L, priv, omitted, k)
  {
    forall k: nat ensures !Holds(nodes, L, priv, omitted, k) {
      if Holds(nodes, L, priv, omitted, k) { HeldLevelListed(nodes, L, priv, omitted, k); }
    }
  }

  lemma FirstPositionLevel(nodes: Nodes, L: nat, priv: map<nat, PrivateKey>, omitted: set<nat>, n: nat)
    requires FirstPosition(RecipientLists(nodes, L, omitted), priv, 0, n)
    ensures HoldsFirst(nodes, L, priv, omitted, PathLevels(nodes, L)[n])
    ensures Rank(nodes, L, PathLevels(nodes, L)[n]) == n + 1
  {
    var lists, H := RecipientLists(nodes, L, omitted), Height(nodes);
    var k := PathLevels(nodes, L)[n];
    LevelRank(nodes, L, H, n);
    forall h: nat | h < k ensures !Holds(nodes, L, priv, omitted, h) {
      if Holds(nodes, L, priv, omitted, h) {
        RankStrict(nodes, L, h, k);
        HeldLevelListed(nodes, L, priv, omitted, h);
      }
    }
  }

  lemma {:induction false} RankStrict(nodes: Nodes, L: nat, h: nat, k: nat)
    requires h < k && Filtered(nodes, L, k)
    ensures Rank(nodes, L, h) < Rank(nodes, L, k)
  {
    RankBound(nodes, L, h, k - 1);
  }

  lemma GeneratedIsPath(nodes: Nodes, L: nat, leafSecret: Term, signer: nat, groupId: nat, omitted: set<nat>,
                        base: GroupContext)
    requires At(nodes, 0, L).LeafSlot?
    ensures
      var g := Generate(nodes, L, leafSecret, signer, groupId, omitted, base).value;
      IsPath(nodes, L, leafSecret, omitted, base.(treeHash := RootHash(g.nodes)), g.path.nodes)
  {
  }

  lemma {:induction false} SecretAt(nodes: Nodes, c: nat, k: nat, leafSecret: Term)
    requires 0 < k <= Height(nodes) && Filtered(nodes, c, k)
    ensures var x := Index(k, Shr(c, k)); var secrets := SecretsByNode(nodes, c, leafSecret);
            x in secrets && secrets[x] == PathSecret(leafSecret, Rank(nodes, c, k))
  {
    var i := Rank(nodes, c, k) - 1;
    LevelListed(nodes, c, Height(nodes), k);
    assert PathLevels(nodes, c)[i] == k;
    IndexCoordinates(k, Shr(c, k));
  }

  /** Whoever holds current keys gets from a generated path the sender's own commit secret and the path
      secret the sender keeps for the lowest node that holds something for it, or nothing if none does. */
  lemma GeneratedOpens(nodes: Nodes, L: nat, leafSecret: Term, signer: nat, groupId: nat, omitted: set<nat>,
                       base: GroupContext, priv: map<nat, PrivateKey>)
    requires At(nodes, 0, L).LeafSlot? && KeysCurrent(nodes, L, priv, omitted)
    ensures
      var g := Generate(nodes, L, leafSecret, signer, groupId, omitted, base).value;
      match Process(nodes, L, g.path.nodes, priv, base.(treeHash := RootHash(g.nodes)), omitted)
      case PathError => false
      case NoSecret => forall k: nat :: !Holds(nodes, L, priv, omitted, k)
      case Opened(secret, commitSecret) =>
        && commitSecret == g.commitSecret
        && exists k: nat :: HoldsFirst(nodes, L, priv, omitted, k) && KeptAt(g.secrets, L, k, secret)
  {
    var g := Generate(nodes, L, leafSecret, signer, groupId, omitted, base).value;
    var gc := base.(treeHash := RootHash(g.nodes));
    GeneratedIsPath(nodes, L, leafSecret, signer, groupId, omitted, base);
    ProcessInvertsGenerate(nodes, L, leafSecret, omitted, gc, g.path.nodes, priv);
    match Process(nodes, L, g.path.nodes, priv, gc, omitted)
    case PathError =>
    case NoSecret =>
    case Opened(secret, _) =>
      var k: nat :| HoldsFirst(nodes, L, priv, omitted, k) && secret == PathSecret(leafSecret, Rank(nodes, L, k));
      SecretAt(nodes, L, k, leafSecret);
      assert KeptAt(g.secrets, L, k, secret);
  }

  predicate KeptAt(secrets: map<nat, Term>, L: nat, k: nat, secret: Term) {
    Index(k, Shr(L, k)) in secrets && secrets[Index(k, Shr(L, k))] == secret
  }

  // ---------------------------------------------------------------- a receiver with its covering key

  lemma {:induction false} WithoutKeeps(s: seq<nat>, omitted: set<nat>, d: nat)
    ensures d in Without(s, omitted) <==> d in s && d !in omitted
  {
    if s != [] {
      assert s == [s[0]] + s[1..];
      WithoutKeeps(s[1..], omitted, d);
    }
  }

  /** The receiver holds the current key of the entry that covers it, which got a ciphertext, and
      no other recipient's. */
  ghost predicate HoldsCover(nodes: Nodes, L: nat, m: nat, priv: map<nat, PrivateKey>, omitted: set<nat>, d: nat) {
    && L != m && CoverPosition(nodes, L, m) < |CopathResolution(nodes, L, Meet(L, m))|
    && d == CopathResolution(nodes, L, Meet(L, m))[CoverPosition(nodes, L, m)]
    && d in priv && priv[d].seed == SlotKey(SlotAt(nodes, d)).seed && d !in omitted
    && forall k: nat, e :: 0 < k <= Height(nodes) && e in Recipients(nodes, L, k, omitted) && e in priv ==> e == d
  }

  /** For any sender and any newly added set, such a receiver gets the path secret of the node where
      the two paths meet and the sender's commit secret. */
  lemma CoveredReceiver(nodes: Nodes, L: nat, m: nat, leafSecret: Term, omitted: set<nat>, gc: GroupContext,
                        path: seq<PathNode>, priv: map<nat, PrivateKey>, d: nat)
    requires WellFormed(nodes) && 2 * L < |nodes| && At(nodes, 0, m).LeafSlot?
    requires IsPath(nodes, L, leafSecret, omitted, gc, path) && HoldsCover(nodes, L, m, priv, omitted, d)
    ensures Process(nodes, L, path, priv, gc, omitted) ==
            Opened(PathSecret(leafSecret, Rank(nodes, L, Meet(L, m))),
              PathSecret(leafSecret, Rank(nodes, L, Height(nodes)) + 1))
  {
    ProcessInvertsGenerate(nodes, L, leafSecret, omitted, gc, path, priv);
    CoveredExactlyOnce(nodes, L, m);
    var k0 := Meet(L, m);
    WithoutKeeps(CopathResolution(nodes, L, k0), omitted, d);
    assert Holds(nodes, L, priv, omitted, k0);
    var o := Process(nodes, L, path, priv, gc, omitted);
    if o.Opened? {
      var k: nat :| HoldsFirst(nodes, L, priv, omitted, k) && o.secret == PathSecret(leafSecret, Rank(nodes, L, k));
      OnlyCoverLevel(nodes, L, m, priv, omitted, d, k);
    }
  }

  lemma OnlyCoverLevel(nodes: Nodes, L: nat, m: nat, priv: map<nat, PrivateKey>, omitted: set<nat>, d: nat, k: nat)
    requires WellFormed(nodes) && 2 * L < |nodes| && At(nodes, 0, m).LeafSlot?
    requires HoldsCover(nodes, L, m, priv, omitted, d) && Holds(nodes, L, priv, omitted, k)
    ensures k == Meet(L, m)
  {
    CoveredExactlyOnce(nodes, L, m);
    var e :| e in Recipients(nodes, L, k, omitted) && e in priv;
    var res := CopathResolution(nodes, L, k);
    WithoutKeeps(res, omitted, e);
    var i :| 0 <= i < |res| && res[i] == e;
    assert IsCoverEntry(nodes, L, m, k, i);
  }
}
