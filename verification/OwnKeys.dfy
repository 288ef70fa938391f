/** What a member does with a commit when all it holds are keys on its own path, current or not
    (mls/tree/treekem.go, mls/group/process.go). */
module OwnKeys {

  import opened TreeMath
  import opened Symbolic
  import opened Ratchet
  import opened PathInstall
  import opened TreeInvariant
  import opened Coverage
  import opened TreeKem
  import opened KeySchedule
  import opened GroupOps
  import opened GroupAgreement
  import opened GroupSteps

  predicate OnOwnPath(m: nat, x: nat) {
    Shr(m, Level(x)) == Position(x)
  }

  predicate OwnPath(m: nat, keys: map<nat, PrivateKey>) {
    forall x | x in keys :: OnOwnPath(m, x)
  }

  // ---------------------------------------------------------------- opening a path

  lemma {:induction false} RecipientBelow(nodes: Nodes, c: nat, omitted: set<nat>, k: nat, e: nat)
    requires ParentsOk(nodes) && k > 0 && e in Recipients(nodes, c, k, omitted)
    ensures Level(e) < k && Shr(Position(e), k - 1 - Level(e)) == Flip(Shr(c, k - 1)) && !SlotAt(nodes, e).Blank?
  {
    var res := CopathResolution(nodes, c, k);
    WithoutKeeps(res, omitted, e);
    var i :| 0 <= i < |res| && res[i] == e;
    EntryBelow(nodes, k - 1, Flip(Shr(c, k - 1)), i);
  }

  /** A recipient on m's own path belongs to the level where m's path meets the sender's. */
  lemma {:induction false} HeldAtMeet(c: nat, m: nat, k: nat, e: nat)
    requires k > Level(e) && Shr(Position(e), k - 1 - Level(e)) == Flip(Shr(c, k - 1)) && OnOwnPath(m, e)
    ensures k == Meet(c, m)
  {
    ShrAdd(m, Level(e), k - 1 - Level(e));
    CopathHolds(c, m, k);
  }

  /** Only position n of the path may hold something. */
  predicate OnlyAt(recipients: seq<seq<nat>>, keys: map<nat, PrivateKey>, n: nat) {
    forall i | 0 <= i < |recipients| && i != n :: !HoldsAny(recipients[i], keys)
  }

  lemma {:induction false} FindOnly(recipients: seq<seq<nat>>, path: seq<PathNode>, keys: map<nat, PrivateKey>,
                                    gc: GroupContext, i: nat, n: nat)
    requires |recipients| == |path| && i <= |path| && n < |path| && OnlyAt(recipients, keys, n)
    requires |path[n].secrets| == |recipients[n]|
    ensures FindSecret(recipients, path, keys, gc, i) ==
            if i <= n && HoldsAny(recipients[n], keys)
            then
              FirstHeldIn(recipients[n], keys);
              var h := FirstHeld(recipients[n], keys);
              Hit(n, Decrypt(keys[recipients[n][h]], gc, path[n].secrets[h]))
            else Miss
    decreases |path| - i
  {
    if i < |path| {
      FirstHeldIn(recipients[i], keys);
      FindOnly(recipients, path, keys, gc, i + 1, n);
    }
  }

  /** The entry whose key the member tries. */
  function Tried(nodes: Nodes, c: nat, m: nat, keys: map<nat, PrivateKey>, omitted: set<nat>): (e: nat)
    requires c != m && HoldsAny(Recipients(nodes, c, Meet(c, m), omitted), keys)
    ensures e in Recipients(nodes, c, Meet(c, m), omitted) && e in keys
  {
    var entries := Recipients(nodes, c, Meet(c, m), omitted);
    FirstHeldIn(entries, keys);
    entries[FirstHeld(entries, keys)]
  }

  predicate Current(nodes: Nodes, keys: map<nat, PrivateKey>, e: nat)
    requires e in keys
  {
    keys[e].seed == SlotKey(SlotAt(nodes, e)).seed
  }

  /** A member with keys on its own path only tries at most one of them: it gets the sender's secrets
      if that key is current, an error if it is not, and nothing if it holds no recipient's key. */
  function Tries(nodes: Nodes, c: nat, m: nat, leafSecret: Term, keys: map<nat, PrivateKey>, omitted: set<nat>): Opening
    requires c != m
  {
    if !HoldsAny(Recipients(nodes, c, Meet(c, m), omitted), keys) then NoSecret
    else if Current(nodes, keys, Tried(nodes, c, m, keys, omitted)) then
      Opened(PathSecret(leafSecret, Rank(nodes, c, Meet(c, m))),
        PathSecret(leafSecret, Rank(nodes, c, Height(nodes)) + 1))
    else PathError
  }

  lemma {:induction false} ProcessTries(nodes: Nodes, c: nat, m: nat, leafSecret: Term, omitted: set<nat>,
                                        gc: GroupContext, path: seq<PathNode>, keys: map<nat, PrivateKey>)
    requires WellFormed(nodes) && 2 * c < |nodes| && c != m && At(nodes, 0, m).LeafSlot? && OwnPath(m, keys)
    requires IsPath(nodes, c, leafSecret, omitted, gc, path)
    ensures Process(nodes, c, path, keys, gc, omitted) == Tries(nodes, c, m, leafSecret, keys, omitted)
  {
    MeetFiltered(nodes, c, m);
    var n := Rank(nodes, c, Meet(c, m)) - 1;
    LevelListed(nodes, c, Height(nodes), Meet(c, m));
    OnlyMeet(nodes, c, m, keys, omitted, n);
    PathKeyed(nodes, c, leafSecret, omitted, gc, path);
    OpenAtMeet(nodes, c, m, leafSecret, omitted, gc, path, keys, n);
  }

  lemma {:induction false} OpenAtMeet(nodes: Nodes, c: nat, m: nat, leafSecret: Term, omitted: set<nat>,
                                      gc: GroupContext, path: seq<PathNode>, keys: map<nat, PrivateKey>, n: nat)
    requires c != m && n < |path| == |PathLevels(nodes, c)| && PathLevels(nodes, c)[n] == Meet(c, m)
    requires Rank(nodes, c, Meet(c, m)) == n + 1
    requires path[n] == PathNodeAt(nodes, c, leafSecret, omitted, gc, Meet(c, m))
    requires OnlyAt(RecipientLists(nodes, c, omitted), keys, n)
    requires forall h :: 0 <= h < |path| ==> path[h].key == PublicKey(NodeSeed(PathSecret(leafSecret, h + 1)))
    ensures Process(nodes, c, path, keys, gc, omitted) == Tries(nodes, c, m, leafSecret, keys, omitted)
  {
    var entries := Recipients(nodes, c, Meet(c, m), omitted);
    assert path[n].secrets == Sealed(nodes, entries, gc, PathSecret(leafSecret, n + 1));
    FirstHeldIn(entries, keys);
    OpenOnly(RecipientLists(nodes, c, omitted), path, keys, gc, leafSecret, n);
  }

  lemma {:induction false} OpenOnly(recipients: seq<seq<nat>>, path: seq<PathNode>, keys: map<nat, PrivateKey>,
                                    gc: GroupContext, leafSecret: Term, n: nat)
    requires |recipients| == |path| && n < |path| && OnlyAt(recipients, keys, n) && |path[n].secrets| == |recipients[n]|
    requires forall h :: 0 <= h < |path| ==> path[h].key == PublicKey(NodeSeed(PathSecret(leafSecret, h + 1)))
    requires forall h :: 0 <= h < |recipients[n]| ==> path[n].secrets[h].context == gc
    requires forall h :: 0 <= h < |recipients[n]| ==> path[n].secrets[h].secret == PathSecret(leafSecret, n + 1)
    ensures Open(recipients, path, keys, gc) ==
            (FirstHeldIn(recipients[n], keys);
             var h := FirstHeld(recipients[n], keys);
             if !HoldsAny(recipients[n], keys) then NoSecret
             else if keys[recipients[n][h]].seed == path[n].secrets[h].to.seed
             then Opened(PathSecret(leafSecret, n + 1), PathSecret(leafSecret, |path| + 1))
             else PathError)
  {
    FindOnly(recipients, path, keys, gc, 0, n);
    DeriveUpMeets(path, leafSecret, n);
  }

  lemma {:induction false} HeldLevel(nodes: Nodes, c: nat, m: nat, keys: map<nat, PrivateKey>, omitted: set<nat>,
                                     k: nat)
    requires ParentsOk(nodes) && OwnPath(m, keys) && k > 0 && HoldsAny(Recipients(nodes, c, k, omitted), keys)
    ensures k == Meet(c, m)
  {
    var e :| e in Recipients(nodes, c, k, omitted) && e in keys;
    RecipientBelow(nodes, c, omitted, k, e);
    HeldAtMeet(c, m, k, e);
  }

  lemma {:induction false} OnlyMeet(nodes: Nodes, c: nat, m: nat, keys: map<nat, PrivateKey>, omitted: set<nat>, n: nat)
    requires ParentsOk(nodes) && OwnPath(m, keys) && n < |PathLevels(nodes, c)| && PathLevels(nodes, c)[n] == Meet(c, m)
    ensures OnlyAt(RecipientLists(nodes, c, omitted), keys, n)
  {
    var lists, levels := RecipientLists(nodes, c, omitted), PathLevels(nodes, c);
    LevelRank(nodes, c, Height(nodes), n);
    forall i | 0 <= i < |lists| && i != n ensures !HoldsAny(lists[i], keys) {
      LevelRank(nodes, c, Height(nodes), i);
      if HoldsAny(lists[i], keys) { HeldLevel(nodes, c, m, keys, omitted, levels[i]); }
    }
  }

  lemma {:induction false} PathKeyed(nodes: Nodes, c: nat, leafSecret: Term, omitted: set<nat>, gc: GroupContext,
                                     path: seq<PathNode>)
    requires IsPath(nodes, c, leafSecret, omitted, gc, path)
    ensures forall h :: 0 <= h < |path| ==> path[h].key == PublicKey(NodeSeed(PathSecret(leafSecret, h + 1)))
  {
    KeysOfPath(nodes, c, leafSecret, omitted, gc, path);
    forall h | 0 <= h < |path| ensures path[h].key == PublicKey(NodeSeed(PathSecret(leafSecret, h + 1))) {
      assert Keys(path)[h] == path[h].key;
    }
  }

  // ---------------------------------------------------------------- processing a commit

  /** The state of a member that has followed a commit into the committer's new state. */
  function Followed(m: GroupState, ownKey: PrivateKey, secret: Term, next: GroupState): GroupState {
    GroupState(next.gc, next.nodes, MemberKeys(m.ownLeaf, ownKey, secret, next.ownLeaf, Height(next.nodes)),
               next.es, next.interim, next.init, m.ownLeaf, m.signer, map[])
  }

  /** What a member makes of a commit, from what it makes of the path. */
  function Reaction(m: GroupState, keys: map<nat, PrivateKey>, o: Opening, next: GroupState): Option<GroupState>
    requires 2 * m.ownLeaf in keys
  {
    match o
    case Opened(secret, _) => Some(Followed(m, keys[2 * m.ownLeaf], secret, next))
    case _ => None
  }

  /** A commit by s, delivered to m with all the proposals it refers to; adds is the tree after the
      proposals, keys what m then decrypts with. */
  ghost predicate Delivered(s: GroupState, m: GroupState, byReference: seq<ProposalRef>, byValue: seq<Proposal>,
                            leafSecret: Term, delivered: seq<ProposalRef>, adds: Additions, keys: map<nat, PrivateKey>)
  {
    var rs := Expected(Proposed(byReference, byValue), s.ownLeaf);
    var own := OwnUpdate(rs, m.ownLeaf, m.pending);
    && WellFormed(s.nodes) && At(s.nodes, 0, s.ownLeaf).LeafSlot? && SameEpoch(m, s) && m.ownLeaf != s.ownLeaf
    && Commit(s, byReference, byValue, leafSecret).Some?
    && (forall r :: r in delivered ==> Authentic(m, r)) && (forall r :: r in byReference ==> r in delivered)
    && Working(s, rs) == Some(adds)
    && !own.MissingKey? && keys == WorkingKeys(own, m.ownLeaf, m.priv)
  }

  lemma {:induction false} ProcessIs(s: GroupState, m: GroupState, byReference: seq<ProposalRef>,
                                     byValue: seq<Proposal>, leafSecret: Term, delivered: seq<ProposalRef>,
                                     adds: Additions, keys: map<nat, PrivateKey>)
    requires Delivered(s, m, byReference, byValue, leafSecret, delivered, adds, keys)
    requires WellFormed(adds.nodes) && At(adds.nodes, 0, m.ownLeaf).LeafSlot? && OwnPath(m.ownLeaf, keys)
    requires 2 * m.ownLeaf in keys
    ensures
      var r := Commit(s, byReference, byValue, leafSecret).value;
      var o := Tries(adds.nodes, s.ownLeaf, m.ownLeaf, leafSecret, keys, OmittedEntries(adds.leaves));
      ProcessCommit(m, delivered, r.msg) == Reaction(m, keys, o, r.state)
  {
    var rs := Expected(Proposed(byReference, byValue), s.ownLeaf);
    CommitParts(s, byReference, byValue, leafSecret);
    ProcessInParts(s, m, byReference, byValue, leafSecret, delivered);
    var r := Commit(s, byReference, byValue, leafSecret).value;
    RestTries(s, m, adds, rs, leafSecret, keys, r.msg.content, r.state);
  }

  lemma {:induction false} RestTries(s: GroupState, m: GroupState, adds: Additions, rs: seq<Resolved>, leafSecret: Term,
                                     keys: map<nat, PrivateKey>, content: CommitContent, next: GroupState)
    requires SameEpoch(m, s) && m.ownLeaf != s.ownLeaf && At(adds.nodes, 0, s.ownLeaf).LeafSlot?
    requires 2 * m.ownLeaf in keys
    requires WellFormed(adds.nodes) && At(adds.nodes, 0, m.ownLeaf).LeafSlot? && OwnPath(m.ownLeaf, keys)
    requires content.sender == s.ownLeaf && content.path == Some(PathOf(s, adds, rs, leafSecret).value.path)
    requires
      var g := PathOf(s, adds, rs, leafSecret).value;
      var a := AdvanceEpoch(s, g.nodes, NextExtensions(s, rs), g.commitSecret, content);
      && next.ownLeaf == s.ownLeaf && next.gc == a.gc && next.nodes == g.nodes
      && next.es == a.es && next.interim == a.interim && next.init == a.es.init
    ensures
      var g := PathOf(s, adds, rs, leafSecret).value;
      var a := AdvanceEpoch(s, g.nodes, NextExtensions(s, rs), g.commitSecret, content);
      var o := Tries(adds.nodes, s.ownLeaf, m.ownLeaf, leafSecret, keys, OmittedEntries(adds.leaves));
      ProcessWith(m, adds, NextExtensions(m, rs), keys, CommitMsg(content, a.tag)) == Reaction(m, keys, o, next)
  {
    PathProcessed(s, m, adds, rs, leafSecret, keys);
    var g, omitted := PathOf(s, adds, rs, leafSecret).value, OmittedEntries(adds.leaves);
    var gc := EncryptionBase(s, NextExtensions(s, rs)).(treeHash := RootHash(g.nodes));
    InRange(adds.nodes, s.ownLeaf);
    ProcessTries(adds.nodes, s.ownLeaf, m.ownLeaf, leafSecret, omitted, gc, g.path.nodes, keys);
    match Tries(adds.nodes, s.ownLeaf, m.ownLeaf, leafSecret, keys, omitted)
    case PathError =>
    case NoSecret =>
      FinishAgrees(s, m, g, NextExtensions(s, rs), keys, content, PathStep(g.nodes, Zeros, None));
    case Opened(secret, commitSecret) =>
      FinishAgrees(s, m, g, NextExtensions(s, rs), keys, content, PathStep(g.nodes, commitSecret, Some(secret)));
  }
}
