/** When a member can follow the next committer (mls/group/process.go). Following a commit of leaf p
    leaves a member with its leaf key and one key per tree level from where its path meets p's, each
    derived from the one below (mls/group/group.go); but the committer derives one per populated node
    (mls/tree/treekem.go). So the member follows another leaf's commit exactly if the entry that
    covers it is its own leaf, or is no lower than that meeting with no blank node in between. */
module CommitterSwitch {

  import opened TreeMath
  import opened Symbolic
  import opened Ratchet
  import opened PathInstall
  import opened TreeInvariant
  import opened Coverage
  import opened ParentHashes
  import opened TreeKem
  import opened KeySchedule
  import opened GroupOps
  import opened GroupAgreement
  import opened GroupSteps
  import opened OwnKeys
  import opened Proposals

  // ---------------------------------------------------------------- secrets

  /** How many derivations deep a term is. */
  function Chain(t: Term): nat {
    if t.Derived? then 1 + Chain(t.secret) else 0
  }

  lemma {:induction false} PathSecretDepth(leafSecret: Term, r: nat)
    ensures Chain(PathSecret(leafSecret, r)) == Chain(leafSecret) + r
  {
    if r > 0 { PathSecretDepth(leafSecret, r - 1); }
  }

  lemma PathSecretsDiffer(leafSecret: Term, a: nat, b: nat)
    ensures PathSecret(leafSecret, a) == PathSecret(leafSecret, b) <==> a == b
  {
    PathSecretDepth(leafSecret, a);
    PathSecretDepth(leafSecret, b);
  }

  lemma {:induction false} AncestorKeyIs(leafSecret: Term, r: nat, m: nat, k: nat, H: nat, x: nat)
    ensures var keys := AncestorKeys(PathSecret(leafSecret, r), m, k, H);
            && (x in keys <==> k <= Level(x) <= H && OnOwnPath(m, x))
            && (x in keys ==> keys[x] == PrivateKey(NodeSeed(PathSecret(leafSecret, r + Level(x) - k))))
    decreases H + 1 - k
  {
    if k <= H {
      AncestorKeyIs(leafSecret, r + 1, m, k + 1, H, x);
      IndexCoordinates(k, Shr(m, k));
      CoordinatesIndex(x);
    }
  }

  lemma MeetSym(a: nat, b: nat)
    ensures Meet(a, b) == Meet(b, a)
  {
    MeetUnique(b, a, Meet(a, b));
  }

  // ---------------------------------------------------------------- what following p leaves

  /** The keys of member m after it has followed p's commit on the tree `work`. */
  function LeftBy(work: Nodes, p: nat, leafSecret: Term, m: nat, key: PrivateKey): map<nat, PrivateKey> {
    MemberKeys(m, key, PathSecret(leafSecret, Rank(work, p, Meet(p, m))), p, Height(work))
  }

  /** Its own leaf's key and one per level from the meeting with p up, the derivations one per level. */
  lemma {:induction false} KeysAfterFollowing(work: Nodes, p: nat, leafSecret: Term, m: nat, key: PrivateKey, x: nat)
    requires p != m
    ensures var keys := LeftBy(work, p, leafSecret, m, key);
            && (x in keys <==> x == 2 * m || (Meet(p, m) <= Level(x) <= Height(work) && OnOwnPath(m, x)))
            && keys[2 * m] == key
            && (Level(x) > 0 && x in keys ==>
                  keys[x] == PrivateKey(NodeSeed(
                    PathSecret(leafSecret, Rank(work, p, Meet(p, m)) + Level(x) - Meet(p, m)))))
  {
    MeetSym(p, m);
    var r := Rank(work, p, Meet(p, m));
    AncestorKeyIs(leafSecret, r, m, Meet(p, m), Height(work), x);
    AncestorKeyIs(leafSecret, r, m, Meet(p, m), Height(work), 2 * m);
    IndexStep(0, m);
    IndexCoordinates(0, m);
  }

  lemma LeftOnPath(work: Nodes, p: nat, leafSecret: Term, m: nat, key: PrivateKey)
    requires p != m
    ensures OwnPath(m, LeftBy(work, p, leafSecret, m, key)) && 2 * m in LeftBy(work, p, leafSecret, m, key)
  {
    KeysAfterFollowing(work, p, leafSecret, m, key, 2 * m);
    IndexStep(0, m);
    IndexCoordinates(0, m);
    forall x | x in LeftBy(work, p, leafSecret, m, key) ensures OnOwnPath(m, x) {
      KeysAfterFollowing(work, p, leafSecret, m, key, x);
    }
  }

  /** p's path after its commit: populated where filtered, keyed by the rank's secret, nobody unmerged. */
  lemma {:induction false} PathLeft(work: Nodes, p: nat, leafSecret: Term, signer: nat, groupId: nat, k: nat)
    requires WellFormed(work) && At(work, 0, p).LeafSlot? && k > 0
    ensures var slot := At(PathTree(work, p, leafSecret, signer, groupId), k, Shr(p, k));
            && (slot.ParentSlot? <==> k <= Height(work) && Filtered(work, p, k))
            && (slot.ParentSlot? ==>
                  slot.parent.key == PublicKey(NodeSeed(PathSecret(leafSecret, Rank(work, p, k)))) &&
                    slot.parent.unmerged == [])
  {
    InRange(work, p);
    var n := Rank(work, p, Height(work));
    AtMerged(work, p, PathKeys(leafSecret, n), CommitLeaf(work, p, leafSecret, signer, groupId), k, Shr(p, k));
    if k <= Height(work) { RankBound(work, p, k, Height(work)); }
  }

  // ---------------------------------------------------------------- no gap

  /** No blank node on m's path from level lo to hi. */
  ghost predicate Unbroken(nodes: Nodes, m: nat, lo: nat, hi: nat) {
    forall k: nat | lo <= k <= hi :: At(nodes, k, Shr(m, k)).ParentSlot?
  }

  ghost predicate AllFiltered(work: Nodes, p: nat, lo: nat, hi: nat) {
    forall k: nat | lo < k <= hi :: Filtered(work, p, k)
  }

  lemma {:induction false} RankGap(work: Nodes, p: nat, lo: nat, hi: nat)
    requires lo <= hi
    ensures Rank(work, p, hi) - Rank(work, p, lo) <= hi - lo
    ensures Rank(work, p, hi) - Rank(work, p, lo) == hi - lo <==> AllFiltered(work, p, lo, hi)
    decreases hi - lo
  {
    if lo < hi { RankGap(work, p, lo, hi - 1); }
  }

  lemma {:induction false} SharedPath(work: Nodes, p: nat, leafSecret: Term, signer: nat, groupId: nat, m: nat, k: nat)
    requires WellFormed(work) && At(work, 0, p).LeafSlot? && 0 < k && Meet(p, m) <= k
    ensures var slot := At(PathTree(work, p, leafSecret, signer, groupId), k, Shr(m, k));
            && (slot.ParentSlot? <==> k <= Height(work) && Filtered(work, p, k))
            && (slot.ParentSlot? ==>
                  slot.parent.key == PublicKey(NodeSeed(PathSecret(leafSecret, Rank(work, p, k)))) &&
                    slot.parent.unmerged == [])
  {
    ShrMeet(p, m, Meet(p, m), k);
    PathLeft(work, p, leafSecret, signer, groupId, k);
  }

  /** One derivation per level is one per populated node exactly when nothing is blank in between. */
  lemma {:induction false} UnbrokenIff(work: Nodes, p: nat, leafSecret: Term, signer: nat, groupId: nat, m: nat,
                                       hi: nat)
    requires WellFormed(work) && At(work, 0, p).LeafSlot? && At(work, 0, m).LeafSlot? && p != m
    requires Meet(p, m) <= hi <= Height(work)
    ensures Unbroken(PathTree(work, p, leafSecret, signer, groupId), m, Meet(p, m), hi) <==>
            Rank(work, p, hi) == Rank(work, p, Meet(p, m)) + hi - Meet(p, m)
  {
    RankGap(work, p, Meet(p, m), hi);
    MeetPopulated(work, p, leafSecret, signer, groupId, m);
    forall k: nat | Meet(p, m) <= k <= hi
      ensures At(PathTree(work, p, leafSecret, signer, groupId), k, Shr(m, k)).ParentSlot? <==> Filtered(work, p, k)
    {
      SharedPath(work, p, leafSecret, signer, groupId, m, k);
    }
    UnbrokenFrom(work, PathTree(work, p, leafSecret, signer, groupId), p, m, Meet(p, m), hi);
  }

  lemma UnbrokenFrom(work: Nodes, after: Nodes, p: nat, m: nat, lo: nat, hi: nat)
    requires lo <= hi && Filtered(work, p, lo)
    requires forall k: nat {:trigger At(after, k, Shr(m, k))} | lo <= k <= hi ::
             At(after, k, Shr(m, k)).ParentSlot? <==> Filtered(work, p, k)
    ensures Unbroken(after, m, lo, hi) <==> AllFiltered(work, p, lo, hi)
  {
    if Unbroken(after, m, lo, hi) {
      forall k: nat | lo < k <= hi ensures Filtered(work, p, k) { assert At(after, k, Shr(m, k)).ParentSlot?; }
    }
  }

  /** Where m's path meets the committer's is populated after its commit. */
  lemma {:induction false} MeetPopulated(work: Nodes, p: nat, leafSecret: Term, signer: nat, groupId: nat, m: nat)
    requires WellFormed(work) && At(work, 0, p).LeafSlot? && At(work, 0, m).LeafSlot? && p != m
    ensures Filtered(work, p, Meet(p, m)) && 0 < Meet(p, m) <= Height(work)
    ensures At(PathTree(work, p, leafSecret, signer, groupId), Meet(p, m), Shr(m, Meet(p, m))).ParentSlot?
  {
    InRange(work, p);
    MeetFiltered(work, p, m);
    SharedPath(work, p, leafSecret, signer, groupId, m, Meet(p, m));
  }

  // ---------------------------------------------------------------- the covering entry

  /** The entry of c's copath that covers member m; m's own leaf if there is none. */
  ghost function CoverEntry(nodes: Nodes, c: nat, m: nat): nat {
    if c == m || CoverPosition(nodes, c, m) >= |CopathResolution(nodes, c, Meet(c, m))| then 2 * m
    else CopathResolution(nodes, c, Meet(c, m))[CoverPosition(nodes, c, m)]
  }

  lemma {:induction false} CoverOnPath(nodes: Nodes, c: nat, m: nat)
    requires WellFormed(nodes) && 2 * c < |nodes| && c != m && At(nodes, 0, m).LeafSlot?
    ensures var d := CoverEntry(nodes, c, m);
            && d in CopathResolution(nodes, c, Meet(c, m)) && Covers(nodes, d, m) && OnOwnPath(m, d)
            && Level(d) < Meet(c, m) <= Height(nodes) && !SlotAt(nodes, d).Blank? && (Level(d) == 0 ==> d == 2 * m)
  {
    CoveredExactlyOnce(nodes, c, m);
    var k, d := Meet(c, m), CoverEntry(nodes, c, m);
    EntryBelow(nodes, k - 1, Flip(Shr(c, k - 1)), CoverPosition(nodes, c, m));
    CoordinatesIndex(d);
    if Level(d) == 0 { IndexStep(0, m); }
  }

  lemma {:induction false} OnlyCover(nodes: Nodes, c: nat, m: nat, omitted: set<nat>, e: nat)
    requires WellFormed(nodes) && 2 * c < |nodes| && c != m && At(nodes, 0, m).LeafSlot?
    requires e in Recipients(nodes, c, Meet(c, m), omitted) && Covers(nodes, e, m)
    ensures e == CoverEntry(nodes, c, m)
  {
    CoveredExactlyOnce(nodes, c, m);
    var res := CopathResolution(nodes, c, Meet(c, m));
    WithoutKeeps(res, omitted, e);
    var i :| 0 <= i < |res| && res[i] == e;
    assert IsCoverEntry(nodes, c, m, Meet(c, m), i);
  }

  /** The covering entry of a member that is not newly added gets a ciphertext. */
  lemma {:induction false} CoverSealed(nodes: Nodes, c: nat, m: nat, leaves: seq<nat>)
    requires WellFormed(nodes) && 2 * c < |nodes| && c != m && At(nodes, 0, m).LeafSlot? && m !in leaves
    ensures CoverEntry(nodes, c, m) in Recipients(nodes, c, Meet(c, m), OmittedEntries(leaves))
  {
    CoverOnPath(nodes, c, m);
    var d := CoverEntry(nodes, c, m);
    WithoutKeeps(CopathResolution(nodes, c, Meet(c, m)), OmittedEntries(leaves), d);
    forall L | L in leaves ensures 2 * L != d {
      IndexStep(0, L);
      IndexCoordinates(0, L);
    }
  }

  /** All m may hold of c's recipients is the key of its covering entry. */
  ghost predicate HoldsOnly(nodes: Nodes, c: nat, m: nat, keys: map<nat, PrivateKey>, omitted: set<nat>)
    requires c != m
  {
    forall e | e in Recipients(nodes, c, Meet(c, m), omitted) && e in keys :: e == CoverEntry(nodes, c, m)
  }

  lemma {:induction false} TriesCover(nodes: Nodes, c: nat, m: nat, leafSecret: Term, keys: map<nat, PrivateKey>,
                                      leaves: seq<nat>)
    requires WellFormed(nodes) && 2 * c < |nodes| && c != m && At(nodes, 0, m).LeafSlot? && m !in leaves
    requires HoldsOnly(nodes, c, m, keys, OmittedEntries(leaves))
    ensures var d := CoverEntry(nodes, c, m);
            Tries(nodes, c, m, leafSecret, keys, OmittedEntries(leaves)).Opened? <==>
              d in keys && Current(nodes, keys, d)
  {
    CoverSealed(nodes, c, m, leaves);
    var entries, d := Recipients(nodes, c, Meet(c, m), OmittedEntries(leaves)), CoverEntry(nodes, c, m);
    if d in keys { assert HoldsAny(entries, keys); }
    if HoldsAny(entries, keys) { assert Tried(nodes, c, m, keys, OmittedEntries(leaves)) == d; }
  }

  // ---------------------------------------------------------------- a member that followed p

  /** The tree p's commit left is now `now`, as far as member m's path goes. */
  ghost predicate Since(work: Nodes, after: Nodes, now: Nodes, p: nat, leafSecret: Term, signer: nat, groupId: nat,
                        m: nat) {
    && WellFormed(work) && At(work, 0, p).LeafSlot? && At(work, 0, m).LeafSlot? && p != m
    && after == PathTree(work, p, leafSecret, signer, groupId)
    && WellFormed(now) && At(now, 0, m).LeafSlot? && Carried(after, now, m)
  }

  /** A parent m holds a key for is one of p's path, lists m as merged, and has the key of its rank. */
  lemma {:induction false} HeldParent(work: Nodes, after: Nodes, now: Nodes, p: nat, leafSecret: Term, signer: nat,
                                      groupId: nat, m: nat, e: nat)
    requires Since(work, after, now, p, leafSecret, signer, groupId, m)
    requires Level(e) > 0 && Meet(p, m) <= Level(e) && OnOwnPath(m, e) && SlotAt(now, e).ParentSlot?
    ensures Level(e) <= Height(work) && Covers(now, e, m)
    ensures SlotKey(SlotAt(now, e)) == PublicKey(NodeSeed(PathSecret(leafSecret, Rank(work, p, Level(e)))))
  {
    CoordinatesIndex(e);
    assert SlotAt(now, e) == At(now, Level(e), Shr(m, Level(e)));
    SharedPath(work, p, leafSecret, signer, groupId, m, Level(e));
  }

  lemma {:induction false} LeftHoldsOnly(work: Nodes, after: Nodes, now: Nodes, p: nat, leafSecret: Term, signer: nat,
                                         groupId: nat, m: nat, key: PrivateKey, c: nat, omitted: set<nat>)
    requires Since(work, after, now, p, leafSecret, signer, groupId, m) && 2 * c < |now| && c != m
    ensures HoldsOnly(now, c, m, LeftBy(work, p, leafSecret, m, key), omitted)
  {
    var keys := LeftBy(work, p, leafSecret, m, key);
    IndexStep(0, m);
    IndexCoordinates(0, m);
    forall e | e in Recipients(now, c, Meet(c, m), omitted) && e in keys ensures e == CoverEntry(now, c, m) {
      KeysAfterFollowing(work, p, leafSecret, m, key, e);
      RecipientBelow(now, c, omitted, Meet(c, m), e);
      if e != 2 * m { HeldAbove(work, after, now, p, leafSecret, signer, groupId, m, e); }
      OnlyCover(now, c, m, omitted, e);
    }
  }

  lemma {:induction false} HeldAbove(work: Nodes, after: Nodes, now: Nodes, p: nat, leafSecret: Term, signer: nat,
                                     groupId: nat, m: nat, e: nat)
    requires Since(work, after, now, p, leafSecret, signer, groupId, m)
    requires Meet(p, m) <= Level(e) && OnOwnPath(m, e) && !SlotAt(now, e).Blank?
    ensures Covers(now, e, m)
  {
    CoordinatesIndex(e);
    assert SlotAt(now, e) == At(now, Level(e), Position(e));
    HeldParent(work, after, now, p, leafSecret, signer, groupId, m, e);
  }

  lemma {:induction false} LeftParentCurrent(work: Nodes, after: Nodes, now: Nodes, p: nat, leafSecret: Term,
                                             signer: nat, groupId: nat, m: nat, key: PrivateKey, d: nat)
    requires Since(work, after, now, p, leafSecret, signer, groupId, m)
    requires Level(d) > 0 && Meet(p, m) <= Level(d) && OnOwnPath(m, d) && SlotAt(now, d).ParentSlot?
    ensures var keys := LeftBy(work, p, leafSecret, m, key);
            d in keys && (Current(now, keys, d) <==> Unbroken(after, m, Meet(p, m), Level(d)))
  {
    HeldParent(work, after, now, p, leafSecret, signer, groupId, m, d);
    UnbrokenIff(work, p, leafSecret, signer, groupId, m, Level(d));
    KeyMatches(work, p, leafSecret, m, key, d);
  }

  lemma {:induction false} KeyMatches(work: Nodes, p: nat, leafSecret: Term, m: nat, key: PrivateKey, d: nat)
    requires p != m && Level(d) > 0 && Meet(p, m) <= Level(d) <= Height(work) && OnOwnPath(m, d)
    ensures var keys := LeftBy(work, p, leafSecret, m, key);
            && d in keys
            && (keys[d].seed == NodeSeed(PathSecret(leafSecret, Rank(work, p, Level(d)))) <==>
                Rank(work, p, Level(d)) == Rank(work, p, Meet(p, m)) + Level(d) - Meet(p, m))
  {
    KeysAfterFollowing(work, p, leafSecret, m, key, d);
    PathSecretsDiffer(leafSecret, Rank(work, p, Level(d)), Rank(work, p, Meet(p, m)) + Level(d) - Meet(p, m));
  }

  /** The key of the covering entry is held and current exactly if the entry is m's leaf, or is above
      the meeting with p and nothing between is blank. */
  lemma {:induction false} LeftCurrentIff(work: Nodes, after: Nodes, now: Nodes, p: nat, leafSecret: Term, signer: nat,
                                          groupId: nat, m: nat, key: PrivateKey, d: nat)
    requires Since(work, after, now, p, leafSecret, signer, groupId, m) && key.seed == At(now, 0, m).leaf.body.key.seed
    requires OnOwnPath(m, d) && !SlotAt(now, d).Blank? && (Level(d) == 0 ==> d == 2 * m)
    ensures var keys := LeftBy(work, p, leafSecret, m, key);
            d in keys && Current(now, keys, d) <==>
            Level(d) == 0 || (Meet(p, m) <= Level(d) && Unbroken(after, m, Meet(p, m), Level(d)))
  {
    SlotByLevel(now, d);
    if 0 < Level(d) && Meet(p, m) <= Level(d) {
      LeftParentCurrent(work, after, now, p, leafSecret, signer, groupId, m, key, d);
    } else {
      KeysAfterFollowing(work, p, leafSecret, m, key, d);
      IndexStep(0, m);
      IndexCoordinates(0, m);
    }
  }

  lemma SlotByLevel(nodes: Nodes, d: nat)
    requires Typed(nodes)
    ensures SlotAt(nodes, d) == At(nodes, Level(d), Position(d)) && (Level(d) > 0 ==> !SlotAt(nodes, d).LeafSlot?)
  {
    CoordinatesIndex(d);
  }

  // ---------------------------------------------------------------- the last committer, and an updated member

  /** The committer keeps the key of every populated node on its path. */
  lemma {:induction false} CommitterKeyAt(work: Nodes, p: nat, leafSecret: Term, x: nat)
    ensures var keys := CommitterKeys(p, leafSecret, SecretsByNode(work, p, leafSecret));
            && (x in keys ==>
                  OnOwnPath(p, x) && (x == 2 * p || (0 < Level(x) <= Height(work) && Filtered(work, p, Level(x)))))
            && 2 * p in keys && keys[2 * p] == PrivateKey(NodeSeed(leafSecret))
            && (OnOwnPath(p, x) && 0 < Level(x) <= Height(work) && Filtered(work, p, Level(x)) ==>
                  x in keys && keys[x] == PrivateKey(NodeSeed(PathSecret(leafSecret, Rank(work, p, Level(x))))))
  {
    IndexStep(0, p);
    IndexCoordinates(0, p);
    SecretNode(work, p, leafSecret, x);
    SecretNode(work, p, leafSecret, 2 * p);
    CoordinatesIndex(x);
    if 0 < Level(x) <= Height(work) && Filtered(work, p, Level(x)) { SecretAt(work, p, Level(x), leafSecret); }
  }

  lemma {:induction false} SecretNode(work: Nodes, p: nat, leafSecret: Term, x: nat)
    ensures x in SecretsByNode(work, p, leafSecret) ==>
            OnOwnPath(p, x) && 0 < Level(x) <= Height(work) && Filtered(work, p, Level(x))
  {
    var levels := PathLevels(work, p);
    if x in SecretsByNode(work, p, leafSecret) {
      var i :| 0 <= i < |levels| && x == Index(levels[i], Shr(p, levels[i]));
      LevelRank(work, p, Height(work), i);
      IndexCoordinates(levels[i], Shr(p, levels[i]));
    }
  }

  /** The tree the commit of p left is now `now`, as far as its own path goes. */
  ghost predicate SinceOwn(work: Nodes, after: Nodes, now: Nodes, p: nat, leafSecret: Term, signer: nat, groupId: nat) {
    && WellFormed(work) && At(work, 0, p).LeafSlot? && after == PathTree(work, p, leafSecret, signer, groupId)
    && WellFormed(now) && At(now, 0, p).LeafSlot? && Carried(after, now, p)
  }

  lemma {:induction false} OwnParent(work: Nodes, after: Nodes, now: Nodes, p: nat, leafSecret: Term, signer: nat,
                                     groupId: nat, e: nat)
    requires SinceOwn(work, after, now, p, leafSecret, signer, groupId)
    requires Level(e) > 0 && OnOwnPath(p, e) && !SlotAt(now, e).Blank?
    ensures Covers(now, e, p) && Level(e) <= Height(work) && Filtered(work, p, Level(e))
    ensures SlotKey(SlotAt(now, e)) == PublicKey(NodeSeed(PathSecret(leafSecret, Rank(work, p, Level(e)))))
  {
    SlotByLevel(now, e);
    PathLeft(work, p, leafSecret, signer, groupId, Level(e));
  }

  /** Whoever committed last holds the current key of whatever entry covers it. */
  lemma {:induction false} CommitterCurrent(work: Nodes, after: Nodes, now: Nodes, p: nat, leafSecret: Term,
                                            signer: nat, groupId: nat, c: nat, omitted: set<nat>)
    requires SinceOwn(work, after, now, p, leafSecret, signer, groupId) && 2 * c < |now| && c != p
    requires At(now, 0, p).leaf.body.key == PublicKey(NodeSeed(leafSecret))
    ensures var keys := CommitterKeys(p, leafSecret, SecretsByNode(work, p, leafSecret));
            var d := CoverEntry(now, c, p);
            OwnPath(p, keys) && HoldsOnly(now, c, p, keys, omitted) && d in keys && Current(now, keys, d)
  {
    var keys, d := CommitterKeys(p, leafSecret, SecretsByNode(work, p, leafSecret)), CoverEntry(now, c, p);
    IndexStep(0, p);
    IndexCoordinates(0, p);
    forall x | x in keys ensures OnOwnPath(p, x) { CommitterKeyAt(work, p, leafSecret, x); }
    forall e | e in Recipients(now, c, Meet(c, p), omitted) && e in keys ensures e == d {
      CommitterKeyAt(work, p, leafSecret, e);
      RecipientBelow(now, c, omitted, Meet(c, p), e);
      if Level(e) > 0 { OwnParent(work, after, now, p, leafSecret, signer, groupId, e); }
      OnlyCover(now, c, p, omitted, e);
    }
    CoverOnPath(now, c, p);
    CommitterKeyAt(work, p, leafSecret, d);
    if Level(d) > 0 { OwnParent(work, after, now, p, leafSecret, signer, groupId, d); }
  }

  /** A member whose Update the commit carries is covered by its own leaf. */
  lemma {:induction false} UpdatedCurrent(now: Nodes, m: nat, key: PrivateKey, c: nat, omitted: set<nat>)
    requires WellFormed(now) && At(now, 0, m).LeafSlot? && Cleared(now, m) && 2 * c < |now| && c != m
    requires key.seed == At(now, 0, m).leaf.body.key.seed
    ensures var keys := map[2 * m := key];
            OwnPath(m, keys) && HoldsOnly(now, c, m, keys, omitted) && CoverEntry(now, c, m) == 2 * m &&
              Current(now, keys, 2 * m)
  {
    IndexStep(0, m);
    IndexCoordinates(0, m);
    CoverOnPath(now, c, m);
    SlotByLevel(now, CoverEntry(now, c, m));
    assert At(now, Level(CoverEntry(now, c, m)), Shr(m, Level(CoverEntry(now, c, m)))) ==
      SlotAt(now, CoverEntry(now, c, m));
  }

  // ---------------------------------------------------------------- following the next committer

  /** The last commit: by leaf p, on the tree after its proposals. */
  datatype Last = Last(work: Nodes, p: nat, leafSecret: Term, signer: nat, groupId: nat)

  /** A state at the epoch the last commit began, of its committer or of one who followed it there. */
  ghost predicate MemberAfter(last: Last, s: GroupState) {
    && WellFormed(last.work) && At(last.work, 0, last.p).LeafSlot?
    && s.nodes == PathTree(last.work, last.p, last.leafSecret, last.signer, last.groupId)
    && HoldsLeafKey(s.nodes, s.ownLeaf, s.priv) && PendingOk(s.pending)
    && if s.ownLeaf == last.p
       then s.priv == CommitterKeys(last.p, last.leafSecret, SecretsByNode(last.work, last.p, last.leafSecret))
       else
         && At(last.work, 0, s.ownLeaf).LeafSlot?
         && s.priv == LeftBy(last.work, last.p, last.leafSecret, s.ownLeaf, s.priv[2 * s.ownLeaf])
  }

  /** Member m, after p's commit left the tree `after`, can follow c's commit on the tree `now`: it is p
      itself; or the entry covering it is its own leaf; or that entry is no lower than where its path
      meets p's, and no node of its path between the two is blank in `after`. */
  ghost predicate CanFollow(after: Nodes, p: nat, m: nat, now: Nodes, c: nat) {
    var d := CoverEntry(now, c, m);
    m == p || Level(d) == 0 || (Meet(p, m) <= Level(d) && Unbroken(after, m, Meet(p, m), Level(d)))
  }

  /** What a member may hold of the next commit's recipients, and when that opens it. */
  ghost predicate Decides(after: Nodes, p: nat, m: nat, now: Nodes, c: nat, keys: map<nat, PrivateKey>,
                          omitted: set<nat>)
    requires c != m
  {
    && OwnPath(m, keys) && HoldsOnly(now, c, m, keys, omitted)
    && var d := CoverEntry(now, c, m);
       d in keys && Current(now, keys, d) <==> CanFollow(after, p, m, now, c)
  }

  lemma {:induction false} FollowerDecides(last: Last, m: GroupState, now: Nodes, c: nat, omitted: set<nat>)
    requires MemberAfter(last, m) && m.ownLeaf != last.p && c != m.ownLeaf && 2 * c < |now|
    requires WellFormed(now) && Carried(m.nodes, now, m.ownLeaf) && HoldsLeafKey(now, m.ownLeaf, m.priv)
    ensures Decides(m.nodes, last.p, m.ownLeaf, now, c, m.priv, omitted)
  {
    var work, p, ls, i, key := last.work, last.p, last.leafSecret, m.ownLeaf, m.priv[2 * m.ownLeaf];
    LeftOnPath(work, p, ls, i, key);
    LeftHoldsOnly(work, m.nodes, now, p, ls, last.signer, last.groupId, i, key, c, omitted);
    CoverOnPath(now, c, i);
    LeftCurrentIff(work, m.nodes, now, p, ls, last.signer, last.groupId, i, key, CoverEntry(now, c, i));
  }

  lemma {:induction false} CommitterDecides(last: Last, m: GroupState, now: Nodes, c: nat, omitted: set<nat>)
    requires MemberAfter(last, m) && m.ownLeaf == last.p && c != m.ownLeaf && 2 * c < |now|
    requires WellFormed(now) && Carried(m.nodes, now, m.ownLeaf) && HoldsLeafKey(now, m.ownLeaf, m.priv)
    ensures Decides(m.nodes, last.p, m.ownLeaf, now, c, m.priv, omitted)
  {
    CommitterKeyAt(last.work, last.p, last.leafSecret, 2 * last.p);
    CommitterCurrent(last.work, m.nodes, now, last.p, last.leafSecret, last.signer, last.groupId, c, omitted);
  }

  lemma {:induction false} UpdaterDecides(after: Nodes, p: nat, m: nat, now: Nodes, key: PrivateKey, c: nat,
                                          omitted: set<nat>)
    requires WellFormed(now) && HoldsLeafKey(now, m, map[2 * m := key]) && Cleared(now, m) && 2 * c < |now| && c != m
    ensures Decides(after, p, m, now, c, map[2 * m := key], omitted)
  {
    UpdatedCurrent(now, m, key, c, omitted);
    IndexStep(0, m);
    IndexCoordinates(0, m);
  }

  lemma {:induction false} KeysDecide(last: Last, m: GroupState, now: Nodes, own: OwnKey, c: nat, omitted: set<nat>)
    requires MemberAfter(last, m) && c != m.ownLeaf && 2 * c < |now|
    requires WellFormed(now) && Carried(m.nodes, now, m.ownLeaf) && (own.NewKey? ==> Cleared(now, m.ownLeaf))
    requires HoldsLeafKey(now, m.ownLeaf, WorkingKeys(own, m.ownLeaf, m.priv)) && !own.MissingKey?
    ensures Decides(m.nodes, last.p, m.ownLeaf, now, c, WorkingKeys(own, m.ownLeaf, m.priv), omitted)
  {
    if own.NewKey? {
      UpdaterDecides(m.nodes, last.p, m.ownLeaf, now, own.key, c, omitted);
    } else if m.ownLeaf == last.p {
      CommitterDecides(last, m, now, c, omitted);
    } else {
      FollowerDecides(last, m, now, c, omitted);
    }
  }

  // ---------------------------------------------------------------- the result for one commit

  /** The commit's proposals as m and the committer resolve them: at most one Update per sender, and
      m is not removed. */
  predicate Spares(rs: seq<Resolved>, m: nat) {
    OneUpdateEach(rs) && NoRemove(rs, m)
  }

  /** A member at the epoch that p's commit began follows any commit of any other leaf c exactly if it
      has the key of its own Update, should the commit carry one, and CanFollow holds of the tree after
      the proposals; it then is at c's new epoch. Otherwise it rejects the commit. */
  lemma {:induction false} SwitchFollowsIff(last: Last, s: GroupState, m: GroupState, byReference: seq<ProposalRef>,
                                            byValue: seq<Proposal>, leafSecret: Term, delivered: seq<ProposalRef>)
    requires MemberAfter(last, m) && SameEpoch(m, s) && m.ownLeaf != s.ownLeaf && At(s.nodes, 0, s.ownLeaf).LeafSlot?
    requires Commit(s, byReference, byValue, leafSecret).Some?
    requires (forall r :: r in delivered ==> Authentic(m, r)) && (forall r :: r in byReference ==> r in delivered)
    requires Spares(Expected(Proposed(byReference, byValue), s.ownLeaf), m.ownLeaf)
    ensures
      var rs := Expected(Proposed(byReference, byValue), s.ownLeaf);
      var r := Commit(s, byReference, byValue, leafSecret).value;
      var after := ProcessCommit(m, delivered, r.msg);
      && Working(s, rs).Some?
      && (after.Some? <==>
            && !OwnUpdate(rs, m.ownLeaf, m.pending).MissingKey?
            && CanFollow(m.nodes, last.p, m.ownLeaf, Working(s, rs).value.nodes, s.ownLeaf))
      && (after.Some? ==> SameEpoch(after.value, r.state))
  {
    var rs := Expected(Proposed(byReference, byValue), s.ownLeaf);
    TreeLeft(last, m);
    CommitParts(s, byReference, byValue, leafSecret);
    if OwnUpdate(rs, m.ownLeaf, m.pending).MissingKey? {
      ProcessInParts(s, m, byReference, byValue, leafSecret, delivered);
    } else {
      ProcessDecided(last, s, m, byReference, byValue, leafSecret, delivered, Working(s, rs).value);
    }
  }

  lemma TreeLeft(last: Last, m: GroupState)
    requires MemberAfter(last, m)
    ensures WellFormed(m.nodes)
  {
    InRange(last.work, last.p);
    MergedOk(last.work, last.p, PathKeys(last.leafSecret, Rank(last.work, last.p, Height(last.work))),
             CommitLeaf(last.work, last.p, last.leafSecret, last.signer, last.groupId));
  }

  /** The member and its keys, set before the tree after the proposals. */
  ghost predicate Ready(last: Last, m: GroupState, adds: Additions, c: nat, keys: map<nat, PrivateKey>) {
    && WellFormed(adds.nodes) && 2 * c < |adds.nodes| && c != m.ownLeaf && m.ownLeaf !in adds.leaves
    && At(adds.nodes, 0, m.ownLeaf).LeafSlot? && 2 * m.ownLeaf in keys
    && keys[2 * m.ownLeaf].seed == At(adds.nodes, 0, m.ownLeaf).leaf.body.key.seed
    && Decides(m.nodes, last.p, m.ownLeaf, adds.nodes, c, keys, OmittedEntries(adds.leaves))
  }

  lemma {:induction false} GetsReady(last: Last, m: GroupState, rs: seq<Resolved>, adds: Additions, c: nat)
    requires MemberAfter(last, m) && Spares(rs, m.ownLeaf) && WellFormed(m.nodes)
    requires ApplyProposals(m.nodes, rs) == Some(adds)
    requires !OwnUpdate(rs, m.ownLeaf, m.pending).MissingKey? && c != m.ownLeaf && At(adds.nodes, 0, c).LeafSlot?
    ensures Ready(last, m, adds, c, WorkingKeys(OwnUpdate(rs, m.ownLeaf, m.pending), m.ownLeaf, m.priv))
  {
    ProposalsCarry(m.nodes, rs, m.ownLeaf, m.priv, m.pending);
    InRange(adds.nodes, c);
    KeysDecide(last, m, adds.nodes, OwnUpdate(rs, m.ownLeaf, m.pending), c, OmittedEntries(adds.leaves));
  }

  lemma {:induction false} ProcessDecided(last: Last, s: GroupState, m: GroupState, byReference: seq<ProposalRef>,
                                          byValue: seq<Proposal>, leafSecret: Term, delivered: seq<ProposalRef>,
                                          adds: Additions)
    requires MemberAfter(last, m) && Spares(Expected(Proposed(byReference, byValue), s.ownLeaf), m.ownLeaf)
    requires var own := OwnUpdate(Expected(Proposed(byReference, byValue), s.ownLeaf), m.ownLeaf, m.pending);
             Delivered(s, m, byReference, byValue, leafSecret, delivered, adds, WorkingKeys(own, m.ownLeaf, m.priv))
    requires At(adds.nodes, 0, s.ownLeaf).LeafSlot?
    ensures
      var r := Commit(s, byReference, byValue, leafSecret).value;
      var after := ProcessCommit(m, delivered, r.msg);
      && (after.Some? <==> CanFollow(m.nodes, last.p, m.ownLeaf, adds.nodes, s.ownLeaf))
      && (after.Some? ==> SameEpoch(after.value, r.state))
  {
    var rs := Expected(Proposed(byReference, byValue), s.ownLeaf);
    var own := OwnUpdate(rs, m.ownLeaf, m.pending);
    var keys, c := WorkingKeys(own, m.ownLeaf, m.priv), s.ownLeaf;
    GetsReady(last, m, rs, adds, c);
    TriesCover(adds.nodes, c, m.ownLeaf, leafSecret, keys, adds.leaves);
    ProcessIs(s, m, byReference, byValue, leafSecret, delivered, adds, keys);
  }

  // ---------------------------------------------------------------- everyone at the new epoch

  /** The commit of state s as the last one. */
  function LastOf(s: GroupState, adds: Additions, leafSecret: Term): Last {
    Last(adds.nodes, s.ownLeaf, leafSecret, s.signer, s.gc.groupId)
  }

  lemma {:induction false} CommittedAfter(s: GroupState, byReference: seq<ProposalRef>, byValue: seq<Proposal>,
                                          leafSecret: Term, adds: Additions)
    requires WellFormed(s.nodes) && At(s.nodes, 0, s.ownLeaf).LeafSlot?
    requires Commit(s, byReference, byValue, leafSecret).Some?
    requires Working(s, Expected(Proposed(byReference, byValue), s.ownLeaf)) == Some(adds) && WellFormed(adds.nodes)
    ensures var r := Commit(s, byReference, byValue, leafSecret).value;
            MemberAfter(LastOf(s, adds, leafSecret), r.state) && r.state.ownLeaf == s.ownLeaf
  {
    CommitParts(s, byReference, byValue, leafSecret);
    CommitterHolds(LastOf(s, adds, leafSecret));
  }

  lemma {:induction false} CommitterHolds(last: Last)
    requires WellFormed(last.work) && At(last.work, 0, last.p).LeafSlot?
    ensures HoldsLeafKey(PathTree(last.work, last.p, last.leafSecret, last.signer, last.groupId), last.p,
                         CommitterKeys(last.p, last.leafSecret, SecretsByNode(last.work, last.p, last.leafSecret)))
  {
    var work, p, ls := last.work, last.p, last.leafSecret;
    InRange(work, p);
    AtMerged(work, p, PathKeys(ls, Rank(work, p, Height(work))), CommitLeaf(work, p, ls, last.signer, last.groupId), 0,
      p);
    CommitterKeyAt(work, p, ls, 2 * p);
    forall x | x in CommitterKeys(p, ls, SecretsByNode(work, p, ls)) ensures x == 2 * p || Level(x) > 0 {
      CommitterKeyAt(work, p, ls, x);
    }
  }

  /** Leaf i other than the committer's is as it was before the path went in. */
  lemma {:induction false} LeafStays(last: Last, i: nat)
    requires WellFormed(last.work) && At(last.work, 0, last.p).LeafSlot? && i != last.p
    ensures At(PathTree(last.work, last.p, last.leafSecret, last.signer, last.groupId), 0, i) == At(last.work, 0, i)
  {
    InRange(last.work, last.p);
    MergedOff(last.work, last.p, PathKeys(last.leafSecret, Rank(last.work, last.p, Height(last.work))),
              CommitLeaf(last.work, last.p, last.leafSecret, last.signer, last.groupId));
    OtherLeaf(last.work, PathTree(last.work, last.p, last.leafSecret, last.signer, last.groupId), last.p, i);
  }

  /** Keys left by the last commit at a member's leaf. */
  lemma {:induction false} LeftHolds(last: Last, i: nat, key: PrivateKey)
    requires WellFormed(last.work) && At(last.work, 0, last.p).LeafSlot? && i != last.p
    requires At(last.work, 0, i).LeafSlot? && key.seed == At(last.work, 0, i).leaf.body.key.seed
    ensures HoldsLeafKey(PathTree(last.work, last.p, last.leafSecret, last.signer, last.groupId), i,
                         LeftBy(last.work, last.p, last.leafSecret, i, key))
  {
    LeafStays(last, i);
    MemberKeysOk(PathTree(last.work, last.p, last.leafSecret, last.signer, last.groupId), i, key,
                 PathSecret(last.leafSecret, Rank(last.work, last.p, Meet(last.p, i))), last.p, Height(last.work));
    KeysAfterFollowing(last.work, last.p, last.leafSecret, i, key, 2 * i);
  }

  /** A member that follows a commit is at its epoch as one who followed it there. */
  lemma {:induction false} FollowedAfter(last: Last, s: GroupState, m: GroupState, byReference: seq<ProposalRef>,
                                         byValue: seq<Proposal>, leafSecret: Term, delivered: seq<ProposalRef>,
                                         adds: Additions)
    requires MemberAfter(last, m) && SameEpoch(m, s) && m.ownLeaf != s.ownLeaf && At(s.nodes, 0, s.ownLeaf).LeafSlot?
    requires Commit(s, byReference, byValue, leafSecret).Some?
    requires (forall r :: r in delivered ==> Authentic(m, r)) && (forall r :: r in byReference ==> r in delivered)
    requires Spares(Expected(Proposed(byReference, byValue), s.ownLeaf), m.ownLeaf)
    requires Working(s, Expected(Proposed(byReference, byValue), s.ownLeaf)) == Some(adds)
    requires ProcessCommit(m, delivered, Commit(s, byReference, byValue, leafSecret).value.msg).Some?
    ensures var r := Commit(s, byReference, byValue, leafSecret).value;
            var after := ProcessCommit(m, delivered, r.msg).value;
            MemberAfter(LastOf(s, adds, leafSecret), after) && SameEpoch(after, r.state) && after.ownLeaf == m.ownLeaf
  {
    var rs := Expected(Proposed(byReference, byValue), s.ownLeaf);
    TreeLeft(last, m);
    CommitParts(s, byReference, byValue, leafSecret);
    ProcessInParts(s, m, byReference, byValue, leafSecret, delivered);
    FollowedKeys(last, s, m, byReference, byValue, leafSecret, delivered, adds);
  }

  lemma {:induction false} FollowedKeys(last: Last, s: GroupState, m: GroupState, byReference: seq<ProposalRef>,
                                        byValue: seq<Proposal>, leafSecret: Term, delivered: seq<ProposalRef>,
                                        adds: Additions)
    requires MemberAfter(last, m) && Spares(Expected(Proposed(byReference, byValue), s.ownLeaf), m.ownLeaf)
    requires var own := OwnUpdate(Expected(Proposed(byReference, byValue), s.ownLeaf), m.ownLeaf, m.pending);
             Delivered(s, m, byReference, byValue, leafSecret, delivered, adds, WorkingKeys(own, m.ownLeaf, m.priv))
    requires At(adds.nodes, 0, s.ownLeaf).LeafSlot?
    requires Commit(s, byReference, byValue, leafSecret).value.state.nodes ==
             PathTree(adds.nodes, s.ownLeaf, leafSecret, s.signer, s.gc.groupId)
    requires Commit(s, byReference, byValue, leafSecret).value.state.ownLeaf == s.ownLeaf
    requires ProcessCommit(m, delivered, Commit(s, byReference, byValue, leafSecret).value.msg).Some?
    ensures var r := Commit(s, byReference, byValue, leafSecret).value;
            var after := ProcessCommit(m, delivered, r.msg).value;
            MemberAfter(LastOf(s, adds, leafSecret), after) && SameEpoch(after, r.state) && after.ownLeaf == m.ownLeaf
  {
    var rs := Expected(Proposed(byReference, byValue), s.ownLeaf);
    var own := OwnUpdate(rs, m.ownLeaf, m.pending);
    var keys, c := WorkingKeys(own, m.ownLeaf, m.priv), s.ownLeaf;
    GetsReady(last, m, rs, adds, c);
    ProcessIs(s, m, byReference, byValue, leafSecret, delivered, adds, keys);
    LeftHolds(LastOf(s, adds, leafSecret), m.ownLeaf, keys[2 * m.ownLeaf]);
    KeysAfterFollowing(adds.nodes, c, leafSecret, m.ownLeaf, keys[2 * m.ownLeaf], 2 * m.ownLeaf);
  }

  // ---------------------------------------------------------------- joiners

  /** The Welcome entry of the h-th added member carries the path secret of its meeting with c. */
  predicate Invites(w: Welcome, adds: Additions, next: GroupState, work: Nodes, leafSecret: Term) {
    && w.info == SealedInfo(WelcomeSecret(next.es.joiner), InfoOf(next))
    && |w.entries| == |adds.leaves| == |adds.packages|
    && forall h :: 0 <= h < |adds.packages| && adds.leaves[h] != next.ownLeaf ==>
         w.entries[h] == WelcomeEntry(adds.packages[h], adds.packages[h].initKey, w.info, next.es.joiner,
                                      PathSecret(leafSecret, Rank(work, next.ownLeaf,
                                        Meet(next.ownLeaf, adds.leaves[h]))))
  }

  lemma {:induction false} WelcomeSecretsFound(adds: Additions, c: nat, leafSecret: Term)
    requires WellFormed(adds.nodes) && 2 * c < |adds.nodes| && Seated(adds, c)
    ensures forall h :: 0 <= h < |adds.leaves| ==>
              CommonAncestor(adds.leaves[h], c) in SecretsByNode(adds.nodes, c, leafSecret) &&
              SecretsByNode(adds.nodes, c, leafSecret)[CommonAncestor(adds.leaves[h], c)] ==
              PathSecret(leafSecret, Rank(adds.nodes, c, Meet(c, adds.leaves[h])))
  {
    forall h | 0 <= h < |adds.leaves|
      ensures CommonAncestor(adds.leaves[h], c) in SecretsByNode(adds.nodes, c, leafSecret)
      ensures SecretsByNode(adds.nodes, c, leafSecret)[CommonAncestor(adds.leaves[h], c)] ==
              PathSecret(leafSecret, Rank(adds.nodes, c, Meet(c, adds.leaves[h])))
    {
      assert adds.leaves[h] in adds.leaves;
      WelcomeSecretFound(adds.nodes, c, adds.leaves[h], leafSecret);
    }
  }

  /** The last step of a commit: an entry for every added member. */
  lemma {:induction false} FinishInvites(s: GroupState, adds: Additions, g: Generated, ext: nat,
                                         proposals: seq<ProposalOrRef>, leafSecret: Term)
    requires WellFormed(adds.nodes) && At(adds.nodes, 0, s.ownLeaf).LeafSlot? && Seated(adds, s.ownLeaf)
    requires adds.leaves != [] && g.secrets == SecretsByNode(adds.nodes, s.ownLeaf, leafSecret)
    ensures FinishCommit(s, adds, g, ext, proposals, leafSecret).Some?
    ensures var r := FinishCommit(s, adds, g, ext, proposals, leafSecret).value;
            r.welcome.Some? && r.state.ownLeaf == s.ownLeaf &&
            (r.welcome.value.info == SealedInfo(WelcomeSecret(r.state.es.joiner), InfoOf(r.state)) ==>
               Invites(r.welcome.value, adds, r.state, adds.nodes, leafSecret))
  {
    InRange(adds.nodes, s.ownLeaf);
    WelcomeSecretsFound(adds, s.ownLeaf, leafSecret);
    WelcomeBuilt(s, adds, g, ext, proposals, leafSecret);
  }

  /** A commit that succeeds reaches its last step. */
  lemma {:induction false} CommitFinishes(s: GroupState, byReference: seq<ProposalRef>, byValue: seq<Proposal>,
                                          leafSecret: Term, adds: Additions) returns (g: Generated)
    requires WellFormed(s.nodes) && At(s.nodes, 0, s.ownLeaf).LeafSlot?
    requires Commit(s, byReference, byValue, leafSecret).Some?
    requires Working(s, Expected(Proposed(byReference, byValue), s.ownLeaf)) == Some(adds)
    ensures At(adds.nodes, 0, s.ownLeaf).LeafSlot?
    ensures g.secrets == SecretsByNode(adds.nodes, s.ownLeaf, leafSecret)
    ensures var rs := Expected(Proposed(byReference, byValue), s.ownLeaf);
            Commit(s, byReference, byValue, leafSecret) ==
            FinishCommit(s, adds, g, NextExtensions(s, rs), Proposed(byReference, byValue), leafSecret)
  {
    CommitInParts(s, byReference, byValue, leafSecret);
    CommitParts(s, byReference, byValue, leafSecret);
    g := PathOf(s, adds, Expected(Proposed(byReference, byValue), s.ownLeaf), leafSecret).value;
  }

  lemma {:induction false} CommitInvites(s: GroupState, byReference: seq<ProposalRef>, byValue: seq<Proposal>,
                                         leafSecret: Term, adds: Additions)
    requires WellFormed(s.nodes) && At(s.nodes, 0, s.ownLeaf).LeafSlot?
    requires Commit(s, byReference, byValue, leafSecret).Some?
    requires Working(s, Expected(Proposed(byReference, byValue), s.ownLeaf)) == Some(adds)
    requires WellFormed(adds.nodes) && Seated(adds, s.ownLeaf) && adds.leaves != []
    ensures var r := Commit(s, byReference, byValue, leafSecret).value;
            r.welcome.Some? && Invites(r.welcome.value, adds, r.state, adds.nodes, leafSecret)
  {
    var rs := Expected(Proposed(byReference, byValue), s.ownLeaf);
    var g := CommitFinishes(s, byReference, byValue, leafSecret, adds);
    CommitShape(s, byReference, byValue, leafSecret);
    FinishInvites(s, adds, g, NextExtensions(s, rs), Proposed(byReference, byValue), leafSecret);
  }

  /** Whoever joins by the Welcome of a commit is at its epoch as one who followed it there. */
  lemma {:induction false} JoinedAfter(last: Last, next: GroupState, w: Welcome, adds: Additions, h: nat, signer: nat)
    requires MemberAfter(last, next) && next.ownLeaf == last.p && EpochShape(next) && adds.nodes == last.work
    requires Seated(adds, last.p) && h < |adds.packages| && Invites(w, adds, next, last.work, last.leafSecret)
    requires JoinBy(w, adds.packages[h], signer).Some?
    ensures var j := JoinBy(w, adds.packages[h], signer).value;
            MemberAfter(last, j) && SameEpoch(j, next) && j.ownLeaf == adds.leaves[h]
  {
    var kp := adds.packages[h];
    TreeLeft(last, next);
    ParsedIsClone(next.nodes, last.p);
    var e := FindEntry(w.entries, kp).value;
    var i :| 0 <= i < |w.entries| && w.entries[i] == e;
    assert adds.leaves[h] in adds.leaves && adds.leaves[i] in adds.leaves;
    LeafStays(last, adds.leaves[h]);
    LeafStays(last, adds.leaves[i]);
    assert SameKeys(At(next.nodes, 0, adds.leaves[h]), At(next.nodes, 0, adds.leaves[i]));
    LeafFound(next.nodes, next.gc.groupId, adds.leaves[h]);
    var key := PrivateKey(kp.leaf.body.key.seed);
    LeftHolds(last, adds.leaves[h], key);
    KeysAfterFollowing(last.work, last.p, last.leafSecret, adds.leaves[h], key, 2 * adds.leaves[h]);
  }

  /** Joining with the private keys of one's own key package. */
  ghost function JoinBy(w: Welcome, kp: KeyPackage, signer: nat): Option<GroupState> {
    Join(w, kp, PrivateKey(kp.initKey.seed), PrivateKey(kp.leaf.body.key.seed), signer)
  }
}
