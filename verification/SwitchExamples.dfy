/** Two runs that end in an honest commit some honest member rejects: one because a third leaf commits
    below a subtree others had keyed, one because a blank node lies between a member's keys. */
module SwitchExamples {

  import opened TreeMath
  import opened Symbolic
  import opened Ratchet
  import opened PathInstall
  import opened TreeInvariant
  import opened Coverage
  import opened ParentHashes
  import opened TreeKem
  import opened KeySchedule
  import opened GroupOps
  import opened GroupAgreement
  import opened GroupSteps
  import opened OwnKeys
  import opened Proposals
  import opened CommitterSwitch
  import opened SwitchRuns
  import opened FreshValues

  // ---------------------------------------------------------------- rounds of leaf 0

  /** Leaf 0 is the only one that has committed, and everyone follows it. */
  ghost predicate Solo(v: Scene) {
    && 0 in v.members && v.members[0].ownLeaf == 0 && CommitterOk(v.members[0])
    && forall i | i in v.members && i != 0 :: Follows(v.members[i], v.members[0]) && v.members[i].ownLeaf == i
  }

  ghost function Got(o: Option<GroupState>, other: GroupState): GroupState {
    if o.Some? then o.value else other
  }

  /** j: the state of the one added member, if any. */
  ghost function MemberNext(v: Scene, r: Input, out: Committed, adds: Additions, j: GroupState, i: nat): GroupState {
    if i == r.c then out.state
    else if i in adds.leaves then j
    else if i in v.members then Got(ProcessCommit(v.members[i], r.byReference, out.msg), out.state)
    else out.state
  }

  /** The scene after a round that adds at most one member. */
  ghost function SceneWith(v: Scene, r: Input, out: Committed, adds: Additions, j: GroupState): Scene
    requires r.c in v.members
  {
    var stay := set i | i in v.members && NoRemove(ProposalsOf(r), i);
    Scene(map i | i in stay + (set L | L in adds.leaves) :: MemberNext(v, r, out, adds, j, i),
          Some(LastOf(v.members[r.c], adds, r.leafSecret)))
  }

  /** Nobody has a reason to reject. */
  ghost predicate AllFollow(v: Scene, r: Input, out: Committed, adds: Additions) {
    forall i | i in v.members && i != r.c && NoRemove(ProposalsOf(r), i) ::
      i !in adds.leaves && ProcessCommit(v.members[i], r.byReference, out.msg).Some?
  }

  ghost predicate OneJoins(out: Committed, adds: Additions, j: GroupState) {
    && |adds.leaves| == |adds.packages| <= 1
    && (adds.leaves != [] ==> out.welcome.Some? && JoinedAs(out.welcome.value, adds, 0, j))
  }

  lemma {:induction false} SceneYields(v: Scene, r: Input, out: Committed, adds: Additions, j: GroupState)
    requires r.c in v.members && NoRemove(ProposalsOf(r), r.c) && r.c !in adds.leaves
    requires AllFollow(v, r, out, adds) && OneJoins(out, adds, j)
    ensures Yields(v, SceneWith(v, r, out, adds, j), r, out, adds)
  {
    FollowsWith(v, r, out, adds, j);
    JoinsWith(v, r, out, adds, j);
  }

  lemma {:induction false} FollowsWith(v: Scene, r: Input, out: Committed, adds: Additions, j: GroupState)
    requires r.c in v.members && AllFollow(v, r, out, adds)
    ensures Follow(v, SceneWith(v, r, out, adds, j), r, out)
  {
  }

  lemma {:induction false} JoinsWith(v: Scene, r: Input, out: Committed, adds: Additions, j: GroupState)
    requires r.c in v.members && r.c !in adds.leaves && OneJoins(out, adds, j)
    ensures Joins(SceneWith(v, r, out, adds, j), out, adds)
  {
    if adds.leaves != [] {
      assert adds.leaves[0] in adds.leaves;
      InScene(v, r, out, adds, j, adds.leaves[0]);
      JoinsOne(SceneWith(v, r, out, adds, j), out, adds, j);
    }
  }

  lemma {:induction false} JoinsOne(v': Scene, out: Committed, adds: Additions, j: GroupState)
    requires |adds.leaves| == 1 && adds.leaves[0] in v'.members && v'.members[adds.leaves[0]] == j
    requires out.welcome.Some? && JoinedAs(out.welcome.value, adds, 0, j)
    ensures Joins(v', out, adds)
  {
  }

  lemma {:induction false} NoUpdates(rs: seq<Resolved>, m: nat, pending: map<PublicKey, PrivateKey>)
    requires forall r | r in rs :: !r.proposal.Update?
    ensures OwnUpdate(rs, m, pending).NoUpdate?
  {
    if rs != [] {
      assert rs[0] in rs && rs == [rs[0]] + rs[1..];
      NoUpdates(rs[1..], m, pending);
    }
  }

  /** Leaf 0's proposals: no Updates, none of them removing leaf 0. */
  ghost predicate Plain(r: Input) {
    r.c == 0 && r.byReference == [] && NoRemove(ProposalsOf(r), 0) && forall p | p in ProposalsOf(r) ::
      !p.proposal.Update?
  }

  ghost predicate Honest(v: Scene, r: Input) {
    0 in v.members && HonestCommit(v.members[0], r.byReference, r.byValue, r.leafSecret)
  }

  lemma {:induction false} SoloMakes(v: Scene, r: Input)
    requires Solo(v) && Plain(r) && Honest(v, r)
    ensures Makes(v, r) && CommitterOk(CommitOf(v, r).value.state) && CommitOf(v, r).value.state.ownLeaf == 0
  {
    CommitSucceeds(v.members[0], r.byReference, r.byValue, r.leafSecret);
  }

  lemma {:induction false} SoloFollower(v: Scene, r: Input, i: nat)
    requires Solo(v) && Plain(r) && Honest(v, r) && i in v.members && i != 0 && NoRemove(ProposalsOf(r), i)
    ensures CommitOf(v, r).Some?
    ensures var out := CommitOf(v, r).value;
            var after := ProcessCommit(v.members[i], r.byReference, out.msg);
            after.Some? && Follows(after.value, out.state) && after.value.ownLeaf == i
  {
    NoUpdates(ProposalsOf(r), i, v.members[i].pending);
    MemberFollows(v.members[0], v.members[i], r.byReference, r.byValue, r.leafSecret, r.byReference);
  }

  lemma {:induction false} SoloJoiner(v: Scene, r: Input)
    requires Solo(v) && Plain(r) && Honest(v, r) && Makes(v, r) && |AddsOf(v, r).value.leaves| == 1
    ensures var out, adds := CommitOf(v, r).value, AddsOf(v, r).value;
            && |adds.packages| == 1 && out.welcome.Some?
            && var j := JoinBy(out.welcome.value, adds.packages[0], 0);
               j.Some? && Follows(j.value, out.state) && j.value.ownLeaf == adds.leaves[0]
  {
    var kp := AddsOf(v, r).value.packages[0];
    JoinerFollows(v.members[0], r.byReference, r.byValue, r.leafSecret, 0, PrivateKey(kp.initKey.seed),
                  PrivateKey(kp.leaf.body.key.seed), 0);
  }

  lemma {:induction false} SoloRound(v: Scene, r: Input) returns (v': Scene, j: GroupState)
    requires Solo(v) && SceneOk(v) && Plain(r) && Honest(v, r) && Makes(v, r) && |AddsOf(v, r).value.leaves| <= 1
    ensures IsRound(v, v', r) && Solo(v') && v' == SceneWith(v, r, CommitOf(v, r).value, AddsOf(v, r).value, j)
  {
    var out, adds := CommitOf(v, r).value, AddsOf(v, r).value;
    SoloMakes(v, r);
    RoundAdds(v, r);
    forall i | i in v.members && i != 0 && NoRemove(ProposalsOf(r), i)
      ensures i !in adds.leaves && Succeeds(ProcessCommit(v.members[i], r.byReference, out.msg), out.state, i)
    {
      StaysPut(v, r, i);
      SoloFollower(v, r, i);
    }
    j := out.state;
    if adds.leaves != [] {
      SoloJoiner(v, r);
      j := JoinBy(out.welcome.value, adds.packages[0], 0).value;
      assert JoinedAs(out.welcome.value, adds, 0, j);
    }
    v' := SceneWith(v, r, out, adds, j);
    SceneYields(v, r, out, adds, j);
    SceneSolo(v, r, out, adds, j);
  }

  ghost predicate Succeeds(o: Option<GroupState>, next: GroupState, i: nat) {
    o.Some? && Follows(o.value, next) && o.value.ownLeaf == i
  }

  /** What everyone but leaf 0 makes of the commit. */
  ghost predicate AllSucceed(v: Scene, r: Input, out: Committed, adds: Additions, j: GroupState) {
    && |adds.leaves| <= 1
    && (forall i | i in v.members && i != 0 && NoRemove(ProposalsOf(r), i) ::
          i !in adds.leaves && Succeeds(ProcessCommit(v.members[i], r.byReference, out.msg), out.state, i))
    && (adds.leaves != [] ==> Succeeds(Some(j), out.state, adds.leaves[0]))
  }

  lemma {:induction false} NextStayed(v: Scene, r: Input, out: Committed, adds: Additions, j: GroupState, i: nat)
    requires r.c == 0 && 0 in v.members && i in v.members && i != 0 && NoRemove(ProposalsOf(r), i) && i !in adds.leaves
    requires Succeeds(ProcessCommit(v.members[i], r.byReference, out.msg), out.state, i)
    ensures i in SceneWith(v, r, out, adds, j).members
    ensures Succeeds(Some(SceneWith(v, r, out, adds, j).members[i]), out.state, i)
  {
    assert MemberNext(v, r, out, adds, j, i) == ProcessCommit(v.members[i], r.byReference, out.msg).value;
  }

  lemma {:induction false} InScene(v: Scene, r: Input, out: Committed, adds: Additions, j: GroupState, i: nat)
    requires r.c in v.members
    ensures i in SceneWith(v, r, out, adds, j).members <==>
            (i in v.members && NoRemove(ProposalsOf(r), i)) || i in adds.leaves
    ensures i in adds.leaves && i != r.c ==> SceneWith(v, r, out, adds, j).members[i] == j
  {
  }

  lemma {:induction false} NextSucceeds(v: Scene, r: Input, out: Committed, adds: Additions, j: GroupState, i: nat)
    requires r.c == 0 && 0 in v.members && 0 !in adds.leaves && i != 0
    requires i in v.members && NoRemove(ProposalsOf(r), i) ==>
               i !in adds.leaves && Succeeds(ProcessCommit(v.members[i], r.byReference, out.msg), out.state, i)
    requires i in adds.leaves ==> Succeeds(Some(j), out.state, i)
    requires i in SceneWith(v, r, out, adds, j).members
    ensures Succeeds(Some(SceneWith(v, r, out, adds, j).members[i]), out.state, i)
  {
    InScene(v, r, out, adds, j, i);
    if i !in adds.leaves { NextStayed(v, r, out, adds, j, i); }
  }

  lemma {:induction false} AllNext(v: Scene, r: Input, out: Committed, adds: Additions, j: GroupState)
    requires r.c == 0 && 0 in v.members && 0 !in adds.leaves && AllSucceed(v, r, out, adds, j)
    ensures forall i | i in SceneWith(v, r, out, adds, j).members && i != 0 ::
              Succeeds(Some(SceneWith(v, r, out, adds, j).members[i]), out.state, i)
  {
    forall i | i in SceneWith(v, r, out, adds, j).members && i != 0
      ensures Succeeds(Some(SceneWith(v, r, out, adds, j).members[i]), out.state, i)
    {
      NextSucceeds(v, r, out, adds, j, i);
    }
  }

  lemma {:induction false} SoloFrom(v: Scene, next: GroupState)
    requires 0 in v.members && v.members[0] == next && next.ownLeaf == 0 && CommitterOk(next)
    requires forall i | i in v.members && i != 0 :: Succeeds(Some(v.members[i]), next, i)
    ensures Solo(v)
  {
  }

  lemma {:induction false} SceneSolo(v: Scene, r: Input, out: Committed, adds: Additions, j: GroupState)
    requires r.c == 0 && 0 in v.members && NoRemove(ProposalsOf(r), 0) && 0 !in adds.leaves
    requires out.state.ownLeaf == 0 && CommitterOk(out.state) && AllSucceed(v, r, out, adds, j)
    ensures Solo(SceneWith(v, r, out, adds, j))
  {
    AllNext(v, r, out, adds, j);
    SoloFrom(SceneWith(v, r, out, adds, j), out.state);
  }

  /** A remaining member's leaf is not handed out again. */
  lemma {:induction false} StaysPut(v: Scene, r: Input, i: nat)
    requires SceneOk(v) && Makes(v, r) && i in v.members && NoRemove(ProposalsOf(r), i)
    ensures i !in AddsOf(v, r).value.leaves
  {
    MemberSound(v, r.c);
    MemberSound(v, i);
    ProposalsPlace(v.members[r.c].nodes, ProposalsOf(r), i);
  }

  // ---------------------------------------------------------------- leaf 0 adds and removes

  function AddInput(nodes: Nodes): Input
    requires Complete(nodes)
  {
    var kp := NewPackage(nodes);
    Input(0, [], [Add(kp)], NewSecret(AddedLeaf(nodes, kp.leaf)))
  }

  function RemovedTwo(nodes: Nodes, a: nat, b: nat): Nodes
    requires 2 * a < |nodes|
  {
    var one := RemovedLeaf(nodes, a);
    if 2 * b < |one| then RemovedLeaf(one, b) else one
  }

  function RemoveInput(nodes: Nodes, a: nat, b: nat): Input
    requires 2 * a < |nodes|
  {
    Input(0, [], [Remove(a), Remove(b)], NewSecret(RemovedTwo(nodes, a, b)))
  }

  lemma {:induction false} ExpectedStep(p: ProposalOrRef, rest: seq<ProposalOrRef>)
    requires p.ByValue?
    ensures Expected([p] + rest, 0) == [Resolved(p.proposal, 0)] + Expected(rest, 0)
  {
    assert ([p] + rest)[1..] == rest;
  }

  lemma ExpectedOne(p: Proposal)
    ensures Expected(Proposed([], [p]), 0) == [Resolved(p, 0)]
  {
    assert Proposed([], [p]) == [ByValue(p)] + [];
    ExpectedStep(ByValue(p), []);
  }

  lemma ExpectedTwo(p: Proposal, q: Proposal)
    ensures Expected(Proposed([], [p, q]), 0) == [Resolved(p, 0), Resolved(q, 0)]
  {
    assert Proposed([], [p, q]) == [ByValue(p)] + ([ByValue(q)] + []);
    ExpectedStep(ByValue(p), [ByValue(q)] + []);
    ExpectedStep(ByValue(q), []);
  }

  lemma {:induction false} NoUpdatesApply(nodes: Nodes, rs: seq<Resolved>, c: nat, signer: nat, groupId: nat)
    requires forall r | r in rs :: !r.proposal.Update?
    ensures ApplyUpdates(nodes, rs) == Some(nodes) && HonestUpdates(nodes, rs, c, signer, groupId)
    decreases |rs|
  {
    if rs != [] {
      assert rs[0] in rs && forall r | r in rs[1..] :: r in rs;
      NoUpdatesApply(nodes, rs[1..], c, signer, groupId);
    }
  }

  lemma {:induction false} NoRemovesApply(nodes: Nodes, rs: seq<Resolved>, c: nat)
    requires Complete(nodes) && forall r | r in rs :: !r.proposal.Remove?
    ensures ApplyRemoves(nodes, rs) == Some(nodes) && HonestRemoves(nodes, rs, c)
    decreases |rs|
  {
    if rs != [] {
      assert rs[0] in rs && forall r | r in rs[1..] :: r in rs;
      NoRemovesApply(nodes, rs[1..], c);
    }
  }

  lemma {:induction false} NoAddsApply(nodes: Nodes, rs: seq<Resolved>, groupId: nat)
    requires Complete(nodes) && forall r | r in rs :: !r.proposal.Add?
    ensures ApplyAdds(nodes, rs) == Additions(nodes, [], []) && HonestAdds(nodes, rs, groupId)
    decreases |rs|
  {
    if rs != [] {
      assert rs[0] in rs && forall r | r in rs[1..] :: r in rs;
      NoAddsApply(nodes, rs[1..], groupId);
    }
  }

  lemma {:induction false} OneAdd(nodes: Nodes, kp: KeyPackage, groupId: nat)
    requires Complete(nodes) && kp.leaf.body.source.KeyPackageSource?
    requires NewLeafOk(nodes, AddSlot(nodes), kp.leaf, groupId)
    ensures var rs := [Resolved(Add(kp), 0)];
            && HonestAdds(nodes, rs, groupId)
            && ApplyAdds(nodes, rs) == Additions(AddedLeaf(nodes, kp.leaf), [AddSlot(nodes)], [kp])
  {
    var rs := [Resolved(Add(kp), 0)];
    assert rs[1..] == [];
    AddedComplete(nodes, kp.leaf);
    NoAddsApply(AddedLeaf(nodes, kp.leaf), rs[1..], groupId);
  }

  lemma {:induction false} AddIsHonest(s: GroupState)
    requires CommitterOk(s) && s.ownLeaf == 0
    ensures var r, kp := AddInput(s.nodes), NewPackage(s.nodes);
            && ProposalsOf(r) == [Resolved(Add(kp), 0)] && Plain(r)
            && HonestCommit(s, r.byReference, r.byValue, r.leafSecret)
            && Working(s, ProposalsOf(r)) == Some(Additions(AddedLeaf(s.nodes, kp.leaf), [AddSlot(s.nodes)], [kp]))
  {
    var r, kp := AddInput(s.nodes), NewPackage(s.nodes);
    var rs := [Resolved(Add(kp), 0)];
    ExpectedOne(Add(kp));
    NewPackageIsNew(s.nodes, s.gc.groupId, AddSlot(s.nodes));
    NewSecretIsFresh(AddedLeaf(s.nodes, kp.leaf), 0);
    NoUpdatesApply(s.nodes, rs, 0, s.signer, s.gc.groupId);
    NoRemovesApply(s.nodes, rs, 0);
    OneAdd(s.nodes, kp, s.gc.groupId);
    HonestBy(s, r, rs, Additions(AddedLeaf(s.nodes, kp.leaf), [AddSlot(s.nodes)], [kp]));
  }

  /** An honest commit, from its parts. */
  lemma {:induction false} HonestBy(s: GroupState, r: Input, rs: seq<Resolved>, adds: Additions)
    requires Complete(s.nodes) && s.ownLeaf == r.c == 0 && r.byReference == [] && ProposalsOf(r) == rs
    requires OneUpdateEach(rs)
    requires HonestProposals(s.nodes, rs, 0, s.signer, s.gc.groupId) && ApplyProposals(s.nodes, rs) == Some(adds)
    requires FreshPath(adds.nodes, 0, r.leafSecret)
    ensures HonestCommit(s, r.byReference, r.byValue, r.leafSecret) && Working(s, ProposalsOf(r)) == Some(adds)
  {
  }

  lemma {:induction false} RemoveIsHonest(s: GroupState, a: nat, b: nat)
    requires CommitterOk(s) && s.ownLeaf == 0 && a != 0 && b != 0 && a != b
    requires At(s.nodes, 0, a).LeafSlot? && At(s.nodes, 0, b).LeafSlot? && 2 * a < |s.nodes|
    ensures var r := RemoveInput(s.nodes, a, b);
            && ProposalsOf(r) == [Resolved(Remove(a), 0), Resolved(Remove(b), 0)] && Plain(r)
            && HonestCommit(s, r.byReference, r.byValue, r.leafSecret)
            && Working(s, ProposalsOf(r)) == Some(Additions(RemovedTwo(s.nodes, a, b), [], []))
  {
    var r := RemoveInput(s.nodes, a, b);
    var rs := [Resolved(Remove(a), 0), Resolved(Remove(b), 0)];
    ExpectedTwo(Remove(a), Remove(b));
    NewSecretIsFresh(RemovedTwo(s.nodes, a, b), 0);
    BothInRange(s.nodes, a, b);
    NoUpdatesApply(s.nodes, rs, 0, s.signer, s.gc.groupId);
    TwoRemoves(s.nodes, a, b);
    NoAddsApply(RemovedTwo(s.nodes, a, b), rs, s.gc.groupId);
    HonestBy(s, r, rs, Additions(RemovedTwo(s.nodes, a, b), [], []));
  }

  lemma {:induction false} BothInRange(nodes: Nodes, a: nat, b: nat)
    requires WellFormed(nodes) && 2 * a < |nodes| && a != b && At(nodes, 0, b).LeafSlot?
    ensures 2 * b < |RemovedLeaf(nodes, a)| && WellFormed(RemovedLeaf(nodes, a)) && WellFormed(RemovedTwo(nodes, a, b))
  {
    RemovedOk(nodes, a);
    RemovedView(nodes, a);
    OtherLeaf(nodes, RemovedLeaf(nodes, a), a, b);
    InRange(RemovedLeaf(nodes, a), b);
    RemovedOk(RemovedLeaf(nodes, a), b);
  }

  lemma {:induction false} TwoRemoves(nodes: Nodes, a: nat, b: nat)
    requires Complete(nodes) && 2 * a < |nodes| && Complete(RemovedLeaf(nodes, a)) && 2 * b < |RemovedLeaf(nodes, a)|
    requires a != 0 && b != 0
    ensures var rs := [Resolved(Remove(a), 0), Resolved(Remove(b), 0)];
            HonestRemoves(nodes, rs, 0) && ApplyRemoves(nodes, rs) == Some(RemovedTwo(nodes, a, b))
  {
    var rs, one := [Resolved(Remove(a), 0), Resolved(Remove(b), 0)], RemovedLeaf(nodes, a);
    assert rs[1..] == [Resolved(Remove(b), 0)] && rs[1..][1..] == [];
    RefitComplete(BlankPath(one, b)[2 * b := Blank]);
    NoRemovesApply(RemovedLeaf(one, b), rs[1..][1..], 0);
    assert ApplyRemoves(one, rs[1..]) == ApplyRemoves(RemovedLeaf(one, b), rs[1..][1..]);
    assert HonestRemoves(one, rs[1..], 0);
  }

  // ---------------------------------------------------------------- growing a group

  function Upto(n: nat): (s: set<nat>)
    ensures forall i: nat :: i in s <==> i < n
  {
    if n == 0 then {} else Upto(n - 1) + {n - 1}
  }

  ghost predicate Filled(nodes: Nodes, leaves: set<nat>) {
    forall L: nat :: At(nodes, 0, L).LeafSlot? <==> L in leaves
  }

  function End(run: seq<Scene>): Scene
    requires |run| > 0
  {
    run[|run| - 1]
  }

  /** A run of leaf 0's rounds that has come to these members. */
  ghost predicate SoloRun(run: seq<Scene>, leaves: set<nat>) {
    Run(run) && SoloScene(End(run), leaves)
  }

  lemma Extended(run: seq<Scene>, v: Scene)
    requires Run(run) && Next(End(run), v)
    ensures Run(run + [v]) && SceneOk(End(run)) && SceneOk(v)
  {
    var more := run + [v];
    forall i | 0 <= i < |more| - 1 ensures Next(more[i], more[i + 1]) {
      if i < |run| - 1 { assert Next(run[i], run[i + 1]); }
    }
    RunOk(run, |run| - 1);
    NextOk(End(run), v);
  }

  lemma {:induction false} FounderOk(s: GroupState)
    requires s == NewGroup(0, Random(0), 0, 0, 0)
    ensures CommitterOk(s) && s.ownLeaf == 0 && Filled(s.nodes, Upto(1))
  {
    SingleLeafOk(s.nodes[0].leaf);
    SingleLeafHashesOk(s.nodes[0].leaf);
    forall k: nat, j: nat ensures At(s.nodes, k, j) == if k == 0 && j == 0 then s.nodes[0] else Blank {
      IndexCoordinates(k, j);
      IndexCoordinates(0, 0);
    }
  }

  lemma Founding() returns (run: seq<Scene>)
    ensures SoloRun(run, Upto(1))
  {
    var s := NewGroup(0, Random(0), 0, 0, 0);
    run := [Scene(map[0 := s], None)];
    assert Created(run[0]);
    CreatedOk(run[0]);
    FounderOk(s);
    assert run[0].members.Keys == Upto(1);
  }

  lemma {:induction false} NextSlot(nodes: Nodes, n: nat)
    requires Typed(nodes) && Filled(nodes, Upto(n))
    ensures AddSlot(nodes) == n
  {
    var L := AddSlot(nodes);
    assert L !in Upto(n);
    if n < L { FirstBlankIsFirst(nodes, 0, n); }
  }

  lemma {:induction false} FilledMore(nodes: Nodes, leaf: LeafNode, n: nat)
    requires Complete(nodes) && Filled(nodes, Upto(n)) && AddSlot(nodes) == n
    ensures Filled(AddedLeaf(nodes, leaf), Upto(n + 1))
  {
    AddedViews(nodes, leaf);
    forall L: nat ensures At(AddedLeaf(nodes, leaf), 0, L).LeafSlot? <==> L in Upto(n + 1) {
      if L != n { OtherLeaf(nodes, AddedLeaf(nodes, leaf), n, L); }
    }
  }

  /** The path of the last commit touches no leaf but the committer's. */
  lemma {:induction false} FilledAfter(last: Last, leaves: set<nat>)
    requires WellFormed(last.work) && At(last.work, 0, last.p).LeafSlot? && Filled(last.work, leaves)
    ensures Filled(PathTree(last.work, last.p, last.leafSecret, last.signer, last.groupId), leaves)
  {
    var after := PathTree(last.work, last.p, last.leafSecret, last.signer, last.groupId);
    CommitterHolds(last);
    forall L: nat ensures At(after, 0, L).LeafSlot? <==> L in leaves {
      if L != last.p { LeafStays(last, L); }
    }
  }

  ghost predicate SoloScene(v: Scene, leaves: set<nat>) {
    && Solo(v) && SceneOk(v) && v.members.Keys == leaves && Filled(v.members[0].nodes, leaves)
    && (v.last.Some? ==> v.last.value.p == 0)
  }

  ghost predicate SoloInput(v: Scene, r: Input, adds: Additions, leaves: set<nat>) {
    && Plain(r) && Honest(v, r) && |adds.leaves| <= 1
    && 0 in v.members && Working(v.members[0], ProposalsOf(r)) == Some(adds) && Filled(adds.nodes, leaves)
    && forall i :: i in leaves <==> (i in v.members && NoRemove(ProposalsOf(r), i)) || i in adds.leaves
  }

  lemma {:induction false} SoloKeys(v: Scene, r: Input, out: Committed, adds: Additions, j: GroupState,
                                    leaves: set<nat>)
    requires r.c in v.members && SoloInput(v, r, adds, leaves)
    ensures SceneWith(v, r, out, adds, j).members.Keys == leaves
  {
  }

  /** One more round of leaf 0. */
  lemma {:induction false} SoloStep(v: Scene, r: Input, adds: Additions, leaves: set<nat>) returns (v': Scene)
    requires Solo(v) && SceneOk(v) && SoloInput(v, r, adds, leaves)
    ensures Next(v, v') && SoloScene(v', leaves) && v'.last == Some(LastOf(v.members[0], adds, r.leafSecret))
  {
    SoloMakes(v, r);
    var j;
    v', j := SoloRound(v, r);
    RoundOk(v, v', r);
    SoloKeys(v, r, CommitOf(v, r).value, adds, j, leaves);
    SoloFilled(v', leaves);
  }

  lemma {:induction false} SoloFilled(v: Scene, leaves: set<nat>)
    requires SceneOk(v) && 0 in v.members && v.last.Some? && Filled(v.last.value.work, leaves)
    ensures Filled(v.members[0].nodes, leaves)
  {
    assert MemberAfter(v.last.value, v.members[0]);
    FilledAfter(v.last.value, leaves);
  }

  lemma {:induction false} GrowScene(v: Scene, n: nat) returns (v': Scene)
    requires SoloScene(v, Upto(n)) && n > 0
    ensures Next(v, v') && SoloScene(v', Upto(n + 1))
  {
    var s := v.members[0];
    AddIsHonest(s);
    NextSlot(s.nodes, n);
    var r, kp := AddInput(s.nodes), NewPackage(s.nodes);
    FilledMore(s.nodes, kp.leaf, n);
    KeepsAll(r, kp);
    v' := SoloStep(v, r, Additions(AddedLeaf(s.nodes, kp.leaf), [n], [kp]), Upto(n + 1));
  }

  lemma KeepsAll(r: Input, kp: KeyPackage)
    requires ProposalsOf(r) == [Resolved(Add(kp), 0)]
    ensures forall i :: NoRemove(ProposalsOf(r), i)
  {
  }

  lemma {:induction false} Grow(run: seq<Scene>, n: nat) returns (more: seq<Scene>)
    requires SoloRun(run, Upto(n)) && n > 0
    ensures SoloRun(more, Upto(n + 1))
  {
    var v := GrowScene(End(run), n);
    Extended(run, v);
    more := run + [v];
  }

  /** Every size of group is reached by leaf 0 adding one member after another. */
  lemma {:induction false} GroupOf(n: nat) returns (run: seq<Scene>)
    requires n > 0
    ensures SoloRun(run, Upto(n))
  {
    if n == 1 {
      run := Founding();
    } else {
      var fewer := GroupOf(n - 1);
      run := Grow(fewer, n - 1);
    }
  }

  // ---------------------------------------------------------------- anybody's round

  function EmptyInput(c: nat, leafSecret: Term): Input {
    Input(c, [], [], leafSecret)
  }

  lemma {:induction false} EmptyCommits(s: GroupState, leafSecret: Term)
    requires WellFormed(s.nodes) && At(s.nodes, 0, s.ownLeaf).LeafSlot?
    ensures Commit(s, [], [], leafSecret).Some? && Expected(Proposed([], []), s.ownLeaf) == []
    ensures Working(s, []) == Some(Additions(s.nodes, [], []))
  {
    assert Proposed([], []) == [];
    CommitInParts(s, [], [], leafSecret);
    EmptyFinishes(s, leafSecret);
  }

  lemma {:induction false} EmptyFinishes(s: GroupState, leafSecret: Term)
    requires Complete(s.nodes) && At(s.nodes, 0, s.ownLeaf).LeafSlot?
    ensures CommitTo(s, s.nodes, [], [], leafSecret).Some?
  {
    assert ApplyProposals(s.nodes, []) == Some(Additions(s.nodes, [], []));
  }

  lemma {:induction false} EmptyMakes(v: Scene, c: nat, leafSecret: Term)
    requires SceneOk(v) && c in v.members
    ensures var r := EmptyInput(c, leafSecret);
            && ProposalsOf(r) == [] && Makes(v, r) && AddsOf(v, r) == Some(Additions(v.members[c].nodes, [], []))
  {
    MemberSound(v, c);
    EmptyCommits(v.members[c], leafSecret);
  }

  /** Everyone can follow leaf c. */
  ghost predicate AllCanFollow(v: Scene, c: nat) {
    && c in v.members && v.last.Some?
    && forall i | i in v.members && i != c :: CanFollow(v.members[c].nodes, v.last.value.p, i, v.members[c].nodes, c)
  }

  /** Leaf c commits nothing but a new path, and all follow. */
  lemma {:induction false} EmptyStep(v: Scene, c: nat, leafSecret: Term) returns (v': Scene)
    requires SceneOk(v) && AllCanFollow(v, c)
    ensures Next(v, v') && SceneOk(v') && v'.members.Keys == v.members.Keys
    ensures v'.last == Some(LastOf(v.members[c], Additions(v.members[c].nodes, [], []), leafSecret))
  {
    var r := EmptyInput(c, leafSecret);
    EmptyMakes(v, c, leafSecret);
    forall i | i in v.members && i != c ensures ProcessCommit(v.members[i], [], CommitOf(v, r).value.msg).Some? {
      assert SameEpoch(v.members[i], v.members[c]);
      SceneFollowsIff(v, r, i);
    }
    var out, adds := CommitOf(v, r).value, Additions(v.members[c].nodes, [], []);
    EmptyYields(v, r, out, adds);
    v' := SceneWith(v, r, out, adds, out.state);
    assert IsRound(v, v', r);
    RoundOk(v, v', r);
  }

  lemma {:induction false} EmptyYields(v: Scene, r: Input, out: Committed, adds: Additions)
    requires r.c in v.members && ProposalsOf(r) == [] && adds.leaves == [] && adds.packages == [] && r.byReference == []
    requires forall i | i in v.members && i != r.c :: ProcessCommit(v.members[i], [], out.msg).Some?
    ensures Yields(v, SceneWith(v, r, out, adds, out.state), r, out, adds)
    ensures SceneWith(v, r, out, adds, out.state).members.Keys == v.members.Keys
  {
    SceneYields(v, r, out, adds, out.state);
  }

  // ---------------------------------------------------------------- reading the trees

  /** A populated node that lists nobody as unmerged. */
  predicate Keyed(nodes: Nodes, k: nat, j: nat) {
    At(nodes, k, j).ParentSlot? && At(nodes, k, j).parent.unmerged == []
  }

  /** The tree of a scene after its last commit. */
  ghost predicate TreeOf(v: Scene, nodes: Nodes) {
    v.last.Some? && SceneOk(v) && v.last.value.p in v.members && forall i | i in v.members ::
      v.members[i].nodes == nodes
  }

  lemma {:induction false} SceneTree(v: Scene, c: nat)
    requires SceneOk(v) && v.last.Some? && c in v.members && v.last.value.p in v.members
    ensures TreeOf(v, v.members[c].nodes)
  {
    forall i | i in v.members ensures v.members[i].nodes == v.members[c].nodes {
      assert SameEpoch(v.members[i], v.members[c]);
    }
  }

  /** The last committer's path is keyed where it meets another member's. */
  lemma {:induction false} KeyedAtMeet(v: Scene, nodes: Nodes, L: nat)
    requires TreeOf(v, nodes) && L in v.members && L != v.last.value.p
    ensures var p := v.last.value.p;
            Keyed(nodes, Meet(p, L), Shr(p, Meet(p, L))) && Keyed(nodes, Meet(p, L), Shr(L, Meet(p, L)))
  {
    var last := v.last.value;
    assert MemberAfter(last, v.members[L]);
    MeetPopulated(last.work, last.p, last.leafSecret, last.signer, last.groupId, L);
    SharedPath(last.work, last.p, last.leafSecret, last.signer, last.groupId, L, Meet(last.p, L));
  }

  /** Off the last committer's path the tree is as it was when it committed. */
  lemma {:induction false} OffPathSame(v: Scene, nodes: Nodes, k: nat, j: nat)
    requires TreeOf(v, nodes) && Shr(v.last.value.p, k) != j
    ensures At(nodes, k, j) == At(v.last.value.work, k, j)
  {
    var last := v.last.value;
    assert MemberAfter(last, v.members[last.p]);
    InRange(last.work, last.p);
    MergedOff(last.work, last.p, PathKeys(last.leafSecret, Rank(last.work, last.p, Height(last.work))),
              CommitLeaf(last.work, last.p, last.leafSecret, last.signer, last.groupId));
  }

  lemma {:induction false} KeyedResolves(nodes: Nodes, k: nat, j: nat, i: nat)
    requires Keyed(nodes, k, j)
    ensures Resolution(nodes, k, j) == [Index(k, j)] && CoverIndex(nodes, k, j, i) == 0
  {
  }

  lemma {:induction false} CoverParent(nodes: Nodes, c: nat, i: nat, k: nat)
    requires c != i && Meet(c, i) == k + 1 && Keyed(nodes, k, Shr(i, k))
    ensures CoverEntry(nodes, c, i) == Index(k, Shr(i, k)) && Level(CoverEntry(nodes, c, i)) == k
  {
    CopathHolds(c, i, k + 1);
    KeyedResolves(nodes, k, Shr(i, k), i);
    assert CoverPosition(nodes, c, i) == 0 && CopathResolution(nodes, c, Meet(c, i)) == [Index(k, Shr(i, k))];
    IndexCoordinates(k, Shr(i, k));
  }

  lemma {:induction false} CoverLeaf(nodes: Nodes, c: nat, i: nat)
    requires c != i && Meet(c, i) == 1 && At(nodes, 0, i).LeafSlot?
    ensures Level(CoverEntry(nodes, c, i)) == 0
  {
    CopathHolds(c, i, 1);
    assert Shr(i, 0) == i;
    IndexCoordinates(0, i);
  }

  lemma SmallMeets()
    ensures Meet(0, 1) == 1 && Meet(0, 2) == 2 && Meet(0, 3) == 2 && Meet(1, 2) == 2 && Meet(1, 3) == 2
    ensures Meet(2, 1) == 2 && Meet(2, 3) == 1 && Shr(1, 1) == 0 && Shr(2, 1) == 1 && Shr(3, 1) == 1 && Shr(0, 1) == 0
  {
    assert Shr(0, 1) == 0 && Shr(1, 1) == 0 && Shr(2, 1) == 1 && Shr(3, 1) == 1;
    assert Shr(0, 2) == 0 && Shr(1, 2) == 0 && Shr(2, 2) == 0 && Shr(3, 2) == 0;
    MeetUnique(0, 1, 1);
    MeetUnique(0, 2, 2);
    MeetUnique(0, 3, 2);
    MeetUnique(1, 2, 2);
    MeetUnique(1, 3, 2);
    MeetUnique(2, 1, 2);
    MeetUnique(2, 3, 1);
  }

  lemma {:induction false} FollowsByLeaf(nodes: Nodes, p: nat, i: nat, c: nat)
    requires c != i && Meet(c, i) == 1 && At(nodes, 0, i).LeafSlot?
    ensures CanFollow(nodes, p, i, nodes, c)
  {
    CoverLeaf(nodes, c, i);
  }

  /** Covered by the very node where its path meets the last committer's. */
  lemma {:induction false} FollowsByParent(nodes: Nodes, p: nat, i: nat, c: nat, k: nat)
    requires c != i && Meet(c, i) == k + 1 && Meet(p, i) == k && Keyed(nodes, k, Shr(i, k))
    ensures CanFollow(nodes, p, i, nodes, c)
  {
    CoverParent(nodes, c, i, k);
    OneUnbroken(nodes, i, k);
  }

  lemma {:induction false} OneUnbroken(nodes: Nodes, i: nat, k: nat)
    requires At(nodes, k, Shr(i, k)).ParentSlot?
    ensures Unbroken(nodes, i, k, k)
  {
  }

  /** Covered by a node below its meeting with the last committer. */
  lemma {:induction false} RejectsBelow(nodes: Nodes, p: nat, i: nat, c: nat, k: nat)
    requires c != i && i != p && Meet(c, i) == k + 1 && 0 < k < Meet(p, i) && Keyed(nodes, k, Shr(i, k))
    ensures !CanFollow(nodes, p, i, nodes, c)
  {
    CoverParent(nodes, c, i, k);
  }

  // ---------------------------------------------------------------- the third committer

  ghost predicate Four(v: Scene, p: nat) {
    SceneOk(v) && v.members.Keys == {0, 1, 2, 3} && v.last.Some? && v.last.value.p == p
  }

  lemma {:induction false} AllPresent(v: Scene, c: nat)
    requires SceneOk(v) && c in v.members
    ensures forall i | i in v.members :: At(v.members[c].nodes, 0, i).LeafSlot?
  {
    forall i | i in v.members ensures At(v.members[c].nodes, 0, i).LeafSlot? {
      MemberSound(v, i);
      assert SameEpoch(v.members[i], v.members[c]);
    }
  }

  lemma {:induction false} FourIn(members: map<nat, GroupState>)
    requires members.Keys == {0, 1, 2, 3}
    ensures 0 in members && 1 in members && 2 in members && 3 in members && forall i | i in members :: i in {0, 1, 2, 3}
  {
    assert forall i :: i in members <==> i in members.Keys;
  }

  lemma {:induction false} FourMembers(v: Scene, p: nat)
    requires Four(v, p) && p in {0, 1, 2, 3}
    ensures 0 in v.members && 1 in v.members && 2 in v.members && 3 in v.members && TreeOf(v, v.members[0].nodes)
    ensures forall i | i in v.members :: i in {0, 1, 2, 3}
    ensures forall i | i in v.members :: At(v.members[0].nodes, 0, i).LeafSlot?
  {
    FourIn(v.members);
    SceneTree(v, 0);
    AllPresent(v, 0);
  }

  /** Leaf 0 has added everyone: they can follow leaf 2. */
  lemma {:induction false} FourSecond(v: Scene)
    requires Four(v, 0)
    ensures AllCanFollow(v, 2)
  {
    FourMembers(v, 0);
    var nodes := v.members[0].nodes;
    KeyedAtMeet(v, nodes, 1);
    FollowSecond(nodes);
    forall i | i in v.members && i != 2 ensures CanFollow(nodes, 0, i, nodes, 2) { assert i in {0, 1, 3}; }
  }

  lemma {:induction false} FollowSecond(nodes: Nodes)
    requires Keyed(nodes, Meet(0, 1), Shr(1, Meet(0, 1))) && At(nodes, 0, 3).LeafSlot?
    ensures forall i | i in {0, 1, 3} :: CanFollow(nodes, 0, i, nodes, 2)
  {
    SmallMeets();
    FollowsByParent(nodes, 0, 1, 2, 1);
    FollowsByLeaf(nodes, 0, 3, 2);
  }

  /** Leaf 2 has committed and keyed its parent: all can follow leaf 0. */
  lemma {:induction false} FourFirst(v: Scene)
    requires Four(v, 2)
    ensures AllCanFollow(v, 0) && Keyed(v.members[0].nodes, 1, 1)
  {
    FourMembers(v, 2);
    var nodes := v.members[0].nodes;
    KeyedAtMeet(v, nodes, 3);
    FollowFirst(nodes);
    forall i | i in v.members && i != 0 ensures CanFollow(nodes, 2, i, nodes, 0) { assert i in {1, 2, 3}; }
  }

  lemma {:induction false} FollowFirst(nodes: Nodes)
    requires Keyed(nodes, Meet(2, 3), Shr(3, Meet(2, 3))) && At(nodes, 0, 1).LeafSlot?
    ensures Keyed(nodes, 1, 1) && forall i | i in {1, 2, 3} :: CanFollow(nodes, 2, i, nodes, 0)
  {
    SmallMeets();
    FollowsByLeaf(nodes, 2, 1, 0);
    FollowsByParent(nodes, 2, 3, 0, 1);
  }

  /** Leaf 0 has committed since: leaves 2 and 3 cannot follow leaf 1. */
  lemma {:induction false} FourThird(v: Scene, i: nat)
    requires Four(v, 0) && Keyed(v.last.value.work, 1, 1) && i in {2, 3}
    ensures 1 in v.members && i in v.members && !CanFollow(v.members[1].nodes, 0, i, v.members[1].nodes, 1)
  {
    FourMembers(v, 0);
    var nodes := v.members[0].nodes;
    assert v.members[1].nodes == nodes;
    SmallMeets();
    OffPathSame(v, nodes, 1, 1);
    RejectsBelow(nodes, 0, i, 1, 1);
  }

  lemma {:induction false} FourRounds() returns (run: seq<Scene>)
    ensures Run(run) && Four(End(run), 0) && Keyed(End(run).last.value.work, 1, 1)
  {
    var run1 := GroupOf(4);
    FourGrown(End(run1));
    FourSecond(End(run1));
    var v2 := EmptyStep(End(run1), 2, Random(1));
    Extended(run1, v2);
    FourStep(End(run1), v2, 2);
    FourFirst(v2);
    var v3 := EmptyStep(v2, 0, Random(2));
    FourStep(v2, v3, 0);
    assert End(run1 + [v2]) == v2;
    Extended(run1 + [v2], v3);
    run := run1 + [v2] + [v3];
  }

  lemma UptoFour()
    ensures Upto(4) == {0, 1, 2, 3}
  {
  }

  lemma {:induction false} SoloLast(v: Scene, leaves: set<nat>)
    requires SoloScene(v, leaves) && 1 in leaves
    ensures SceneOk(v) && v.members.Keys == leaves && v.last.Some? && v.last.value.p == 0
  {
  }

  lemma {:induction false} FourGrown(v: Scene)
    requires SoloScene(v, Upto(4))
    ensures Four(v, 0)
  {
    UptoFour();
    SoloLast(v, Upto(4));
  }

  lemma {:induction false} FourStep(v: Scene, v': Scene, c: nat)
    requires SceneOk(v) && v.members.Keys == {0, 1, 2, 3} && c in v.members && SceneOk(v')
    requires v'.members.Keys == v.members.Keys
    requires v'.last.Some? && v'.last.value.p == v.members[c].ownLeaf
    ensures Four(v', c)
  {
  }

  lemma {:induction false} RejectsNext(v: Scene, c: nat, leafSecret: Term, i: nat)
    requires SceneOk(v) && c in v.members && i in v.members && i != c && v.last.Some?
    requires !CanFollow(v.members[c].nodes, v.last.value.p, i, v.members[c].nodes, c)
    ensures var r := EmptyInput(c, leafSecret);
            Makes(v, r) && ProcessCommit(v.members[i], r.byReference, CommitOf(v, r).value.msg) == None
  {
    EmptyMakes(v, c, leafSecret);
    assert SameEpoch(v.members[i], v.members[c]);
    SceneFollowsIff(v, EmptyInput(c, leafSecret), i);
  }

  /** Leaf 0 founds a group and adds three members; leaf 2 commits, then leaf 0 does, and everyone
      follows each time. Now leaves 2 and 3 both reject leaf 1's commit. */
  lemma {:induction false} ThirdCommitterRejected() returns (run: seq<Scene>, r: Input)
    ensures Run(run) && End(run).members.Keys == {0, 1, 2, 3} && r.c == 1 && Makes(End(run), r)
    ensures forall i | i in {2, 3} ::
              i in End(run).members && ProcessCommit(End(run).members[i], r.byReference,
                CommitOf(End(run), r).value.msg) == None
  {
    run := FourRounds();
    r := EmptyInput(1, Random(3));
    var v := End(run);
    FourThird(v, 2);
    RejectsNext(v, 1, Random(3), 2);
    FourThird(v, 3);
    RejectsNext(v, 1, Random(3), 3);
  }

  // ---------------------------------------------------------------- the skipped level

  lemma {:induction false} FilledLess(nodes: Nodes, a: nat, leaves: set<nat>)
    requires 2 * a < |nodes| && Filled(nodes, leaves)
    ensures Filled(RemovedLeaf(nodes, a), leaves - {a})
  {
    RemovedView(nodes, a);
    forall L: nat ensures At(RemovedLeaf(nodes, a), 0, L).LeafSlot? <==> L in leaves - {a} {
      if L != a { OtherLeaf(nodes, RemovedLeaf(nodes, a), a, L); }
    }
  }

  lemma {:induction false} FilledWithout(nodes: Nodes, a: nat, b: nat, leaves: set<nat>)
    requires WellFormed(nodes) && 2 * a < |nodes| && a != b && Filled(nodes, leaves) && b in leaves
    ensures Filled(RemovedTwo(nodes, a, b), leaves - {a} - {b})
  {
    BothInRange(nodes, a, b);
    FilledLess(nodes, a, leaves);
    FilledLess(RemovedLeaf(nodes, a), b, leaves - {a});
  }

  lemma RemovesJust(r: Input, a: nat, b: nat)
    requires ProposalsOf(r) == [Resolved(Remove(a), 0), Resolved(Remove(b), 0)]
    ensures forall i :: NoRemove(ProposalsOf(r), i) <==> i != a && i != b
  {
    var rs := ProposalsOf(r);
    assert rs[0] in rs && rs[1] in rs;
  }

  /** All leaves but two others than 0. */
  predicate LessTwo(leaves: set<nat>, a: nat, b: nat, rest: set<nat>) {
    a in leaves && b in leaves && a != b && a != 0 && b != 0 && rest == leaves - {a} - {b}
  }

  lemma {:induction false} RemoveFrom(s: GroupState, leaves: set<nat>, a: nat, b: nat, rest: set<nat>)
    returns (r: Input, adds: Additions)
    requires CommitterOk(s) && s.ownLeaf == 0 && Filled(s.nodes, leaves) && LessTwo(leaves, a, b, rest)
    ensures Plain(r) && HonestCommit(s, r.byReference, r.byValue, r.leafSecret) && adds.leaves == []
    ensures Working(s, ProposalsOf(r)) == Some(adds) && Filled(adds.nodes, rest)
    ensures forall i :: i in rest <==> i in leaves && NoRemove(ProposalsOf(r), i)
  {
    InRange(s.nodes, a);
    RemoveIsHonest(s, a, b);
    FilledWithout(s.nodes, a, b, leaves);
    r, adds := RemoveInput(s.nodes, a, b), Additions(RemovedTwo(s.nodes, a, b), [], []);
    RemovesJust(r, a, b);
  }

  lemma {:induction false} RemovesInput(v: Scene, leaves: set<nat>, a: nat, b: nat, rest: set<nat>)
    returns (r: Input, adds: Additions)
    requires SoloScene(v, leaves) && LessTwo(leaves, a, b, rest)
    ensures SoloInput(v, r, adds, rest)
  {
    InMembers(v.members, leaves);
    r, adds := RemoveFrom(v.members[0], leaves, a, b, rest);
    InputFrom(v, r, adds, rest);
  }

  lemma {:induction false} InputFrom(v: Scene, r: Input, adds: Additions, leaves: set<nat>)
    requires 0 in v.members && Plain(r) && Honest(v, r) && |adds.leaves| <= 1
    requires Working(v.members[0], ProposalsOf(r)) == Some(adds) && Filled(adds.nodes, leaves)
    requires forall i :: i in leaves <==> (i in v.members && NoRemove(ProposalsOf(r), i)) || i in adds.leaves
    ensures SoloInput(v, r, adds, leaves)
  {
  }

  /** Leaf 0 removes leaves a and b. */
  lemma {:induction false} Shrink(v: Scene, leaves: set<nat>, a: nat, b: nat, rest: set<nat>) returns (v': Scene)
    requires SoloScene(v, leaves) && LessTwo(leaves, a, b, rest)
    ensures Next(v, v') && SoloScene(v', rest) && v'.last.Some? && Filled(v'.last.value.work, rest)
  {
    var r, adds := RemovesInput(v, leaves, a, b, rest);
    v' := SoloStep(v, r, adds, rest);
  }

  lemma {:induction false} ShrinkRun(run: seq<Scene>, leaves: set<nat>, a: nat, b: nat, rest: set<nat>)
    returns (more: seq<Scene>)
    requires SoloRun(run, leaves) && LessTwo(leaves, a, b, rest)
    ensures SoloRun(more, rest) && End(more).last.Some? && Filled(End(more).last.value.work, rest)
  {
    var v := Shrink(End(run), leaves, a, b, rest);
    Extended(run, v);
    more := run + [v];
  }

  lemma {:induction false} LargeMeets()
    ensures Meet(0, 1) == 1 && Meet(0, 4) == 3 && Meet(8, 1) == 4 && Shr(1, 3) == 0 && Shr(1, 2) == 0 && Shr(4, 3) == 0
    ensures Shr(0, 1) == 0 && Flip(0) == 1
  {
    assert Shr(0, 1) == 0 && Shr(1, 1) == 0 && Shr(4, 1) == 2 && Shr(8, 1) == 4;
    assert Shr(0, 2) == 0 && Shr(1, 2) == 0 && Shr(4, 2) == 1 && Shr(8, 2) == 2;
    assert Shr(0, 3) == 0 && Shr(1, 3) == 0 && Shr(4, 3) == 0 && Shr(8, 3) == 1;
    assert Shr(1, 4) == 0 && Shr(8, 4) == 0;
    MeetUnique(0, 1, 1);
    MeetUnique(0, 4, 3);
    MeetUnique(8, 1, 4);
  }

  /** With leaves 2 and 3 gone, leaf 0's commit leaves its level-2 ancestor blank. */
  lemma {:induction false} LevelSkipped(last: Last, leaves: set<nat>)
    requires WellFormed(last.work) && Filled(last.work, leaves) && last.p == 0 && 0 in leaves && 2 !in leaves
    requires 3 !in leaves
    ensures !At(PathTree(last.work, 0, last.leafSecret, last.signer, last.groupId), 2, Shr(1, 2)).ParentSlot?
  {
    LargeMeets();
    SharedPath(last.work, 0, last.leafSecret, last.signer, last.groupId, 1, 2);
    CopathHasLeaf(last.work, 0, 2);
    NoneBelow(last.work, leaves);
  }

  lemma {:induction false} NoneBelow(nodes: Nodes, leaves: set<nat>)
    requires Filled(nodes, leaves) && 2 !in leaves && 3 !in leaves
    ensures !HasLeaf(nodes, 1, 1)
  {
    forall L: nat | At(nodes, 0, L).LeafSlot? ensures Shr(L, 1) != 1 {
      assert Shr(L, 1) == L / 2;
    }
  }

  /** Covered above a blank node between it and its meeting with the last committer. */
  lemma {:induction false} RejectsGap(nodes: Nodes, p: nat, i: nat, c: nat, k: nat, gap: nat)
    requires c != i && i != p && Meet(c, i) == k + 1 && Meet(p, i) <= gap < k && Keyed(nodes, k, Shr(i, k))
    requires !At(nodes, gap, Shr(i, gap)).ParentSlot?
    ensures !CanFollow(nodes, p, i, nodes, c) && Meet(p, i) <= Level(CoverEntry(nodes, c, i))
  {
    CoverParent(nodes, c, i, k);
    GapBreaks(nodes, i, Meet(p, i), k, gap);
  }

  lemma {:induction false} GapBreaks(nodes: Nodes, i: nat, lo: nat, hi: nat, gap: nat)
    requires lo <= gap <= hi && !At(nodes, gap, Shr(i, gap)).ParentSlot?
    ensures !Unbroken(nodes, i, lo, hi)
  {
  }

  lemma {:induction false} SkippedScene(v: Scene, leaves: set<nat>)
    requires SoloScene(v, leaves) && v.last.Some? && Filled(v.last.value.work, leaves)
    requires SevenLeaves(leaves)
    ensures SceneOk(v) && 1 in v.members && 8 in v.members && v.last.value.p == 0
    ensures var nodes := v.members[8].nodes;
            !CanFollow(nodes, 0, 1, nodes, 8) && Meet(0, 1) <= Level(CoverEntry(nodes, 8, 1))
  {
    SoloLast(v, leaves);
    InMembers(v.members, leaves);
    SceneTree(v, 8);
    var nodes := v.members[8].nodes;
    LargeMeets();
    KeyedAtMeet(v, nodes, 4);
    assert MemberAfter(v.last.value, v.members[8]);
    LevelSkipped(v.last.value, leaves);
    RejectsGap(nodes, 0, 1, 8, 3, 2);
  }

  lemma InMembers(members: map<nat, GroupState>, leaves: set<nat>)
    requires members.Keys == leaves
    ensures forall i :: i in members <==> i in leaves
  {
  }

  /** Leaf 0 founds a group, adds eight members and removes leaves 2 and 3; everyone follows. Leaf 1 holds
      a key for the node that covers it in leaf 8's commit, above its meeting with leaf 0, but derived
      once too often, and rejects the commit. */
  lemma {:induction false} SkippedLevelRejected() returns (run: seq<Scene>, r: Input)
    ensures Run(run) && r.c == 8 && Makes(End(run), r) && 1 in End(run).members
    ensures var v := End(run);
            && v.last.Some? && v.last.value.p == 0
            && Meet(0, 1) <= Level(CoverEntry(AddsOf(v, r).value.nodes, 8, 1))
            && CoverEntry(AddsOf(v, r).value.nodes, 8, 1) in v.members[1].priv
            && ProcessCommit(v.members[1], r.byReference, CommitOf(v, r).value.msg) == None
  {
    run := SkippedRun();
    r := EmptyInput(8, Random(1));
    EmptyMakes(End(run), 8, Random(1));
    RejectsNext(End(run), 8, Random(1), 1);
    HoldsCover(End(run), 8, 1);
  }

  lemma {:induction false} SkippedRun() returns (run: seq<Scene>)
    ensures Run(run)
    ensures var v := End(run);
            && SceneOk(v) && 1 in v.members && 8 in v.members && v.last.Some? && v.last.value.p == 0
            && !CanFollow(v.members[8].nodes, 0, 1, v.members[8].nodes, 8)
            && Meet(0, 1) <= Level(CoverEntry(v.members[8].nodes, 8, 1))
  {
    var leaves;
    run, leaves := ShrunkRun();
    SkippedScene(End(run), leaves);
  }

  predicate NineLeaves(leaves: set<nat>) {
    0 in leaves && 1 in leaves && 2 in leaves && 3 in leaves && 4 in leaves && 8 in leaves
  }

  lemma {:induction false} Nine() returns (run: seq<Scene>, leaves: set<nat>)
    ensures SoloRun(run, leaves) && NineLeaves(leaves)
  {
    leaves := Upto(9);
    run := GroupOf(9);
  }

  predicate SevenLeaves(leaves: set<nat>) {
    0 in leaves && 1 in leaves && 4 in leaves && 8 in leaves && 2 !in leaves && 3 !in leaves
  }

  lemma {:induction false} SevenOf(nine: set<nat>) returns (leaves: set<nat>)
    requires NineLeaves(nine)
    ensures LessTwo(nine, 2, 3, leaves) && SevenLeaves(leaves)
  {
    leaves := nine - {2} - {3};
  }

  lemma {:induction false} ShrunkRun() returns (run: seq<Scene>, leaves: set<nat>)
    ensures SoloRun(run, leaves) && End(run).last.Some? && Filled(End(run).last.value.work, leaves)
    ensures SevenLeaves(leaves)
  {
    var run1, nine := Nine();
    leaves := SevenOf(nine);
    run := ShrinkRun(run1, nine, 2, 3, leaves);
  }

  /** A member holds a key for an entry that covers it above its meeting with the last committer. */
  lemma {:induction false} HoldsCover(v: Scene, c: nat, i: nat)
    requires SceneOk(v) && v.last.Some? && c in v.members && i in v.members && c != i && i != v.last.value.p
    requires Meet(v.last.value.p, i) <= Level(CoverEntry(v.members[c].nodes, c, i))
    ensures CoverEntry(v.members[c].nodes, c, i) in v.members[i].priv
  {
    var last, m, nodes := v.last.value, v.members[i], v.members[c].nodes;
    assert SameEpoch(m, v.members[c]) && MemberAfter(last, m);
    MemberSound(v, c);
    MemberSound(v, i);
    InRange(nodes, c);
    CoverOnPath(nodes, c, i);
    KeysAfterFollowing(last.work, last.p, last.leafSecret, i, m.priv[2 * i], CoverEntry(nodes, c, i));
    assert |nodes| == |last.work|;
  }
}
