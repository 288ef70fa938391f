/** Runs of a group in which anybody commits: every round is one commit that all members follow and
    all added ones join. Over every such run, who can follow the next commit, whoever makes it. */
module SwitchRuns {

  import opened TreeMath
  import opened Symbolic
  import opened Ratchet
  import opened PathInstall
  import opened TreeInvariant
  import opened TreeKem
  import opened KeySchedule
  import opened GroupOps
  import opened GroupAgreement
  import opened GroupSteps
  import opened Proposals
  import opened CommitterSwitch

  /** The members by leaf, and the last commit, if any. */
  datatype Scene = Scene(members: map<nat, GroupState>, last: Option<Last>)

  /** What leaf c commits. */
  datatype Input = Input(c: nat, byReference: seq<ProposalRef>, byValue: seq<Proposal>, leafSecret: Term)

  function ProposalsOf(r: Input): seq<Resolved> {
    Expected(Proposed(r.byReference, r.byValue), r.c)
  }

  function CommitOf(v: Scene, r: Input): Option<Committed> {
    if r.c in v.members then Commit(v.members[r.c], r.byReference, r.byValue, r.leafSecret) else None
  }

  function AddsOf(v: Scene, r: Input): Option<Additions> {
    if r.c in v.members then Working(v.members[r.c], ProposalsOf(r)) else None
  }

  /** Leaf c can make this commit: no sender updates twice and c does not remove itself. */
  predicate Makes(v: Scene, r: Input) {
    OneUpdateEach(ProposalsOf(r)) && NoRemove(ProposalsOf(r), r.c) && CommitOf(v, r).Some? && AddsOf(v, r).Some?
  }

  /** Every remaining member follows the commit. */
  ghost predicate Follow(v: Scene, v': Scene, r: Input, out: Committed) {
    forall i | i in v.members && i != r.c && NoRemove(ProposalsOf(r), i) ::
      i in v'.members && ProcessCommit(v.members[i], r.byReference, out.msg) == Some(v'.members[i])
  }

  /** Every added member joins by the commit's Welcome. */
  ghost predicate Joins(v': Scene, out: Committed, adds: Additions) {
    adds.leaves != [] ==>
      && out.welcome.Some?
      && forall h | 0 <= h < |adds.leaves| ::
           adds.leaves[h] in v'.members && JoinedAs(out.welcome.value, adds, h, v'.members[adds.leaves[h]])
  }

  ghost predicate JoinedAs(w: Welcome, adds: Additions, h: nat, j: GroupState) {
    h < |adds.packages| && exists signer :: JoinBy(w, adds.packages[h], signer) == Some(j)
  }

  /** Who is there after the round, and how they came to be. */
  ghost predicate Yields(v: Scene, v': Scene, r: Input, out: Committed, adds: Additions) {
    && r.c in v.members && v'.last == Some(LastOf(v.members[r.c], adds, r.leafSecret))
    && (forall i :: i in v'.members <==> (i in v.members && NoRemove(ProposalsOf(r), i)) || i in adds.leaves)
    && r.c in v'.members && v'.members[r.c] == out.state
    && Follow(v, v', r, out) && Joins(v', out, adds)
  }

  ghost predicate IsRound(v: Scene, v': Scene, r: Input) {
    Makes(v, r) && Yields(v, v', r, CommitOf(v, r).value, AddsOf(v, r).value)
  }

  /** A member proposes an Update and keeps its key pending. */
  ghost predicate IsUpdate(v: Scene, v': Scene, i: nat, seed: Term) {
    && i in v.members && ProposeUpdate(v.members[i], seed).Some?
    && v' == v.(members := v.members[i := ProposeUpdate(v.members[i], seed).value.state])
  }

  ghost predicate Next(v: Scene, v': Scene) {
    (exists r :: IsRound(v, v', r)) || (exists i, seed :: IsUpdate(v, v', i, seed))
  }

  ghost predicate Created(v: Scene) {
    exists groupId, seed, sigKey, credential, lifetime ::
      v == Scene(map[0 := NewGroup(groupId, seed, sigKey, credential, lifetime)], None)
  }

  ghost predicate Run(run: seq<Scene>) {
    |run| > 0 && Created(run[0]) && forall i :: 0 <= i < |run| - 1 ==> Next(run[i], run[i + 1])
  }

  // ---------------------------------------------------------------- what every run keeps

  ghost predicate Together(members: map<nat, GroupState>) {
    && (forall i | i in members :: members[i].ownLeaf == i)
    && (forall i, h | i in members && h in members :: SameEpoch(members[i], members[h]))
  }

  /** A founder that has not committed yet. */
  ghost predicate Founder(s: GroupState) {
    WellFormed(s.nodes) && HoldsLeafKey(s.nodes, s.ownLeaf, s.priv) && PendingOk(s.pending)
  }

  ghost predicate SceneOk(v: Scene) {
    && Together(v.members)
    && match v.last
       case None => v.members.Keys == {0} && Founder(v.members[0])
       case Some(last) => forall i | i in v.members :: MemberAfter(last, v.members[i])
  }

  lemma MemberSound(v: Scene, i: nat)
    requires SceneOk(v) && i in v.members
    ensures var s := v.members[i]; s.ownLeaf == i && WellFormed(s.nodes) && At(s.nodes, 0, i).LeafSlot?
  {
    match v.last
    case None =>
    case Some(last) => TreeLeft(last, v.members[i]);
  }

  lemma CreatedOk(v: Scene)
    requires Created(v)
    ensures SceneOk(v)
  {
    var groupId, seed, sigKey, credential, lifetime :|
      v == Scene(map[0 := NewGroup(groupId, seed, sigKey, credential, lifetime)], None);
    var s := NewGroup(groupId, seed, sigKey, credential, lifetime);
    SingleLeafOk(s.nodes[0].leaf);
    assert v.members.Keys == {0};
  }

  lemma {:induction false} PendingMore(s: GroupState, seed: Term)
    requires ProposeUpdate(s, seed).Some? && PendingOk(s.pending)
    ensures var s' := ProposeUpdate(s, seed).value.state; s' == s.(pending := s'.pending) && PendingOk(s'.pending)
  {
  }

  lemma {:induction false} UpdateOk(v: Scene, v': Scene, i: nat, seed: Term)
    requires SceneOk(v) && IsUpdate(v, v', i, seed)
    ensures SceneOk(v')
  {
    PendingMore(v.members[i], seed);
    PendingTogether(v.members, i, v'.members[i]);
    match v.last
    case None => assert v'.members.Keys == {0};
    case Some(last) =>
      forall h | h in v'.members ensures MemberAfter(last, v'.members[h]) { assert MemberAfter(last, v.members[h]); }
  }

  lemma {:induction false} PendingTogether(members: map<nat, GroupState>, i: nat, s: GroupState)
    requires Together(members) && i in members && s == members[i].(pending := s.pending)
    ensures Together(members[i := s])
  {
  }

  lemma {:induction false} RoundAdds(v: Scene, r: Input)
    requires SceneOk(v) && Makes(v, r)
    ensures WellFormed(AddsOf(v, r).value.nodes) && Seated(AddsOf(v, r).value, r.c)
  {
    MemberSound(v, r.c);
    ProposalsPlace(v.members[r.c].nodes, ProposalsOf(r), r.c);
  }

  lemma {:induction false} RoundCommitter(v: Scene, r: Input)
    requires SceneOk(v) && Makes(v, r)
    ensures var out, last := CommitOf(v, r).value, LastOf(v.members[r.c], AddsOf(v, r).value, r.leafSecret);
            MemberAfter(last, out.state) && out.state.ownLeaf == r.c && EpochShape(out.state)
  {
    MemberSound(v, r.c);
    RoundAdds(v, r);
    CommittedAfter(v.members[r.c], r.byReference, r.byValue, r.leafSecret, AddsOf(v, r).value);
    CommitShape(v.members[r.c], r.byReference, r.byValue, r.leafSecret);
  }

  /** A member of the new scene, set beside the round's commit. */
  ghost predicate Arrived(v: Scene, r: Input, i: nat, s: GroupState)
    requires Makes(v, r)
  {
    && MemberAfter(LastOf(v.members[r.c], AddsOf(v, r).value, r.leafSecret), s)
    && SameEpoch(s, CommitOf(v, r).value.state) && s.ownLeaf == i
  }

  lemma {:induction false} RoundFollower(v: Scene, r: Input, i: nat)
    requires SceneOk(v) && Makes(v, r) && i in v.members && i != r.c && NoRemove(ProposalsOf(r), i)
    requires ProcessCommit(v.members[i], r.byReference, CommitOf(v, r).value.msg).Some?
    ensures Arrived(v, r, i, ProcessCommit(v.members[i], r.byReference, CommitOf(v, r).value.msg).value)
  {
    var s, m := v.members[r.c], v.members[i];
    MemberSound(v, r.c);
    assert SameEpoch(m, s);
    AllAuthentic(s, m, r);
    FollowedAfter(v.last.value, s, m, r.byReference, r.byValue, r.leafSecret, r.byReference, AddsOf(v, r).value);
  }

  /** What is authentic to the committer is so to a member at its epoch. */
  lemma AllAuthentic(s: GroupState, m: GroupState, r: Input)
    requires SameEpoch(m, s) && Commit(s, r.byReference, r.byValue, r.leafSecret).Some?
    ensures forall p :: p in r.byReference ==> Authentic(m, p)
  {
  }

  lemma {:induction false} RoundJoiner(v: Scene, r: Input, h: nat, j: GroupState)
    requires SceneOk(v) && Makes(v, r) && h < |AddsOf(v, r).value.leaves| && CommitOf(v, r).value.welcome.Some?
    requires JoinedAs(CommitOf(v, r).value.welcome.value, AddsOf(v, r).value, h, j)
    ensures Arrived(v, r, AddsOf(v, r).value.leaves[h], j)
  {
    var s, adds, out := v.members[r.c], AddsOf(v, r).value, CommitOf(v, r).value;
    MemberSound(v, r.c);
    RoundAdds(v, r);
    RoundCommitter(v, r);
    CommitInvites(s, r.byReference, r.byValue, r.leafSecret, adds);
    var signer :| JoinBy(out.welcome.value, adds.packages[h], signer) == Some(j);
    JoinedAfter(LastOf(s, adds, r.leafSecret), out.state, out.welcome.value, adds, h, signer);
  }

  lemma {:induction false} RoundMember(v: Scene, v': Scene, r: Input, i: nat)
    requires SceneOk(v) && IsRound(v, v', r) && i in v'.members
    ensures Arrived(v, r, i, v'.members[i])
  {
    var adds := AddsOf(v, r).value;
    if i == r.c {
      RoundCommitter(v, r);
    } else if i in adds.leaves {
      var h :| 0 <= h < |adds.leaves| && adds.leaves[h] == i;
      RoundJoiner(v, r, h, v'.members[i]);
    } else {
      RoundFollower(v, r, i);
    }
  }

  lemma {:induction false} RoundOk(v: Scene, v': Scene, r: Input)
    requires SceneOk(v) && IsRound(v, v', r)
    ensures SceneOk(v')
  {
    var last, next := LastOf(v.members[r.c], AddsOf(v, r).value, r.leafSecret), CommitOf(v, r).value.state;
    forall i | i in v'.members
      ensures MemberAfter(last, v'.members[i]) && SameEpoch(v'.members[i], next) && v'.members[i].ownLeaf == i
    {
      RoundMember(v, v', r, i);
    }
    AllTogether(v'.members, next);
  }

  lemma {:induction false} AllTogether(members: map<nat, GroupState>, next: GroupState)
    requires forall i | i in members :: SameEpoch(members[i], next) && members[i].ownLeaf == i
    ensures Together(members)
  {
  }

  lemma {:induction false} NextOk(v: Scene, v': Scene)
    requires SceneOk(v) && Next(v, v')
    ensures SceneOk(v')
  {
    if exists r :: IsRound(v, v', r) {
      var r :| IsRound(v, v', r);
      RoundOk(v, v', r);
    } else {
      var i, seed :| IsUpdate(v, v', i, seed);
      UpdateOk(v, v', i, seed);
    }
  }

  lemma {:induction false} RunOk(run: seq<Scene>, n: nat)
    requires Run(run) && n < |run|
    ensures SceneOk(run[n])
  {
    if n == 0 {
      CreatedOk(run[0]);
    } else {
      RunOk(run, n - 1);
      assert Next(run[n - 1], run[n - 1 + 1]);
      NextOk(run[n - 1], run[n]);
    }
  }

  /** In every run of any length, with any committers: whatever leaf c commits next, another member i
      that it does not remove follows it exactly if it holds the key of its own Update, if the commit
      carries one, and is the last committer, or is covered by its own leaf, or is covered no lower
      than where its path meets the last committer's with no blank node in between. */
  lemma {:induction false} RunFollowsIff(run: seq<Scene>, n: nat, r: Input, i: nat)
    requires Run(run) && n < |run| && Makes(run[n], r)
    requires i in run[n].members && i != r.c && NoRemove(ProposalsOf(r), i)
    ensures run[n].last.Some?
    ensures
      var m := run[n].members[i];
      ProcessCommit(m, r.byReference, CommitOf(run[n], r).value.msg).Some? <==>
        && !OwnUpdate(ProposalsOf(r), i, m.pending).MissingKey?
        && CanFollow(m.nodes, run[n].last.value.p, i, AddsOf(run[n], r).value.nodes, r.c)
  {
    RunOk(run, n);
    SceneFollowsIff(run[n], r, i);
  }

  lemma {:induction false} SceneFollowsIff(v: Scene, r: Input, i: nat)
    requires SceneOk(v) && Makes(v, r) && i in v.members && i != r.c && NoRemove(ProposalsOf(r), i)
    ensures v.last.Some?
    ensures
      var m := v.members[i];
      ProcessCommit(m, r.byReference, CommitOf(v, r).value.msg).Some? <==>
        && !OwnUpdate(ProposalsOf(r), i, m.pending).MissingKey?
        && CanFollow(m.nodes, v.last.value.p, i, AddsOf(v, r).value.nodes, r.c)
  {
    var s, m := v.members[r.c], v.members[i];
    MemberSound(v, r.c);
    assert SameEpoch(m, s);
    AllAuthentic(s, m, r);
    SwitchFollowsIff(v.last.value, s, m, r.byReference, r.byValue, r.leafSecret, r.byReference);
  }
}
