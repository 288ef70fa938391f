/** Runs of a group with one committing leaf.

    The committer commits at its own pace; every other member joins by Welcome, proposes, processes
    the commits in order or leaves when removed, each at its own pace.  In every reachable world each
    member holds the tree, group context, transcript and secrets of the committer at its epoch, and
    no commit or Welcome is ever rejected. */
module GroupRun {
  import opened TreeMath
  import opened Symbolic
  import opened Ratchet
  import opened TreeInvariant
  import opened ParentHashes
  import opened TreeKem
  import opened KeySchedule
  import opened GroupOps
  import opened GroupAgreement
  import opened GroupSteps

  datatype Inputs = Inputs(byReference: seq<ProposalRef>, byValue: seq<Proposal>, leafSecret: Term)

  /** A member is named by the commit that added it and its place among that commit's additions. */
  datatype MemberId = MemberId(commit: nat, place: nat)

  datatype Author = Committer | Member(id: MemberId)
  datatype Sent = Sent(author: Author, framed: ProposalRef)

  /** A commit's inputs and what it put on the wire. */
  datatype Record = Record(inp: Inputs, adds: Additions, msg: CommitMsg, welcome: Option<Welcome>)

  /** states[e] is the committer at epoch e; commits[e] takes it from e to e + 1. */
  datatype World = World(
    states: seq<GroupState>, commits: seq<Record>, joined: set<MemberId>, members: map<MemberId, GroupState>,
      sent: set<Sent>)

  function ProposalsAt(s: GroupState, inp: Inputs): seq<Resolved> {
    Expected(Proposed(inp.byReference, inp.byValue), s.ownLeaf)
  }

  function CommitBy(s: GroupState, inp: Inputs): Option<Committed> {
    Commit(s, inp.byReference, inp.byValue, inp.leafSecret)
  }

  function AddedBy(s: GroupState, inp: Inputs): Additions {
    match Working(s, ProposalsAt(s, inp))
    case Some(adds) => adds
    case None => Additions([], [], [])
  }

  // ---------------------------------------------------------------- steps

  function RecordOf(s: GroupState, inp: Inputs, r: Committed): Record {
    Record(inp, AddedBy(s, inp), r.msg, r.welcome)
  }

  ghost predicate CommitStep(w: World, w': World, inp: Inputs) {
    && |w.states| > 0
    && var s := w.states[|w.states| - 1];
       && HonestCommit(s, inp.byReference, inp.byValue, inp.leafSecret)
       && (forall r | r in inp.byReference :: exists t | t in w.sent :: t.framed == r)
       && CommitBy(s, inp).Some?
       && var r := CommitBy(s, inp).value;
          w' == w.(states := w.states + [r.state], commits := w.commits + [RecordOf(s, inp, r)])
  }

  ghost predicate CommitterSendStep(w: World, w': World, p: Proposal) {
    && |w.states| > 0
    && w' == w.(sent := w.sent + {Sent(Committer, Framed(w.states[|w.states| - 1], p))})
  }

  ghost predicate SendStep(w: World, w': World, id: MemberId, p: Proposal) {
    && id in w.members && !p.Update?
    && w' == w.(sent := w.sent + {Sent(Member(id), Framed(w.members[id], p))})
  }

  ghost predicate UpdateStep(w: World, w': World, id: MemberId, seed: Term) {
    && id in w.members && ProposeUpdate(w.members[id], seed).Some?
    && var p := ProposeUpdate(w.members[id], seed).value;
       w' == w.(members := w.members[id := p.state],
                sent := w.sent + {Sent(Member(id), Framed(w.members[id], p.proposal))})
  }

  /** Member id, still in the group after the next commit, processes it. */
  ghost predicate CanProcess(w: World, id: MemberId, delivered: seq<ProposalRef>) {
    && id in w.members
    && var m := w.members[id];
       && m.gc.epoch < |w.commits| && m.gc.epoch < |w.states|
       && var s, c := w.states[m.gc.epoch], w.commits[m.gc.epoch];
          && NoRemove(ProposalsAt(s, c.inp), m.ownLeaf)
          && (forall r :: r in delivered ==> Authentic(m, r))
          && (forall r :: r in c.inp.byReference ==> r in delivered)
  }

  function Processed(w: World, id: MemberId, delivered: seq<ProposalRef>): Option<GroupState>
    requires id in w.members && w.members[id].gc.epoch < |w.commits|
  {
    ProcessCommit(w.members[id], delivered, w.commits[w.members[id].gc.epoch].msg)
  }

  /** A member that rejects the commit is lost. */
  ghost predicate ProcessStep(w: World, w': World, id: MemberId, delivered: seq<ProposalRef>) {
    && CanProcess(w, id, delivered)
    && w' == w.(members := match Processed(w, id, delivered)
                           case Some(m) => w.members[id := m]
                           case None => w.members - {id})
  }

  /** A member learns that the next commit removes it. */
  ghost predicate LeaveStep(w: World, w': World, id: MemberId) {
    && id in w.members
    && w' == w.(members := w.members - {id})
  }

  /** The joiner holds the private keys of its key package. */
  ghost function JoinAt(c: Record, place: nat, signer: nat): Option<GroupState>
    requires c.welcome.Some? && place < |c.adds.packages|
  {
    var kp := c.adds.packages[place];
    Join(c.welcome.value, kp, PrivateKey(kp.initKey.seed), PrivateKey(kp.leaf.body.key.seed), signer)
  }

  ghost predicate CanJoin(w: World, id: MemberId) {
    && id !in w.joined && id.commit < |w.commits|
    && var c := w.commits[id.commit];
       c.welcome.Some? && id.place < |c.adds.packages|
  }

  ghost function Joining(w: World, id: MemberId, signer: nat): Option<GroupState>
    requires CanJoin(w, id)
  {
    JoinAt(w.commits[id.commit], id.place, signer)
  }

  ghost predicate JoinStep(w: World, w': World, id: MemberId, signer: nat) {
    && CanJoin(w, id)
    && w' == w.(joined := w.joined + {id},
                members := match Joining(w, id, signer) case Some(m) => w.members[id := m] case None => w.members)
  }

  ghost predicate Next(w: World, w': World) {
    || (exists inp :: CommitStep(w, w', inp))
    || (exists p :: CommitterSendStep(w, w', p))
    || (exists id, p :: SendStep(w, w', id, p))
    || (exists id, seed :: UpdateStep(w, w', id, seed))
    || (exists id, delivered :: ProcessStep(w, w', id, delivered))
    || (exists id :: LeaveStep(w, w', id))
    || (exists id, signer :: JoinStep(w, w', id, signer))
  }

  ghost predicate Start(w: World) {
    exists s :: CommitterOk(s) && s.gc.epoch == 0 && w == World([s], [], {}, map[], {})
  }

  ghost predicate Run(run: seq<World>) {
    |run| > 0 && Start(run[0]) && forall i :: 0 <= i < |run| - 1 ==> Next(run[i], run[i + 1])
  }

  // ---------------------------------------------------------------- invariant

  ghost predicate Shape(w: World) {
    |w.states| == |w.commits| + 1 && forall e :: 0 <= e < |w.states| ==> w.states[e].gc.epoch == e
  }

  ghost predicate Sound(states: seq<GroupState>) {
    forall e {:trigger CommitterOk(states[e])} :: 0 <= e < |states| ==> CommitterOk(states[e])
  }

  /** The record is that of an honest commit from one state to the next. */
  ghost predicate CommitOk(s: GroupState, c: Record, next: GroupState) {
    && HonestCommit(s, c.inp.byReference, c.inp.byValue, c.inp.leafSecret)
    && CommitBy(s, c.inp).Some?
    && CommitBy(s, c.inp).value.state == next
    && c == RecordOf(s, c.inp, CommitBy(s, c.inp).value)
  }

  ghost predicate CommitsOk(states: seq<GroupState>, commits: seq<Record>) {
    forall e {:trigger CommitOk(states[e], commits[e], states[e + 1])} ::
      0 <= e < |commits| && e + 1 < |states| ==> CommitOk(states[e], commits[e], states[e + 1])
  }

  ghost predicate HistoryOk(states: seq<GroupState>, commits: seq<Record>) {
    Sound(states) && CommitsOk(states, commits)
  }

  /** The e-th commit adds each leaf once and refers only to proposals sent in its epoch. */
  predicate RecordOk(c: Record, e: nat, sent: set<Sent>) {
    && Distinct(c.adds.leaves)
    && forall r | r in c.inp.byReference :: r.epoch == e && exists t | t in sent :: t.framed == r
  }

  predicate RecordsOk(w: World) {
    forall e :: 0 <= e < |w.commits| ==> RecordOk(w.commits[e], e, w.sent)
  }

  /** Leaf indices added by the h-th commit. */
  function LeavesAdded(w: World, h: nat): seq<nat>
    requires h < |w.commits|
  {
    w.commits[h].adds.leaves
  }

  /** From its addition until epoch e, leaf belongs to member id. */
  ghost predicate Tenure(w: World, id: MemberId, leaf: nat, e: nat)
    requires Shape(w)
  {
    && id.commit < e <= |w.commits|
    && id.place < |LeavesAdded(w, id.commit)| && LeavesAdded(w, id.commit)[id.place] == leaf
    && (forall h :: id.commit < h < e ==> leaf !in LeavesAdded(w, h))
  }

  ghost predicate MemberOk(w: World, id: MemberId)
    requires Shape(w) && id in w.members
  {
    var m := w.members[id];
    && id in w.joined && m.gc.epoch < |w.states|
    && Follows(m, w.states[m.gc.epoch])
    && Tenure(w, id, m.ownLeaf, m.gc.epoch)
  }

  ghost predicate MembersOk(w: World)
    requires Shape(w)
  {
    forall id {:trigger MemberOk(w, id)} :: id in w.members ==> MemberOk(w, id)
  }

  /** The author has not gone back before the epoch of its Update, and while it stays there the
      Update's key is pending. */
  predicate StillPending(members: map<MemberId, GroupState>, id: MemberId, r: ProposalRef)
    requires r.proposal.Update?
  {
    id in members ==>
      && r.epoch <= members[id].gc.epoch
      && (r.epoch == members[id].gc.epoch ==> r.proposal.leaf.body.key in members[id].pending)
  }

  ghost predicate SentOk(w: World, t: Sent)
    requires Shape(w)
  {
    var r := t.framed;
    r.proposal.Update? ==>
      match t.author
      case Committer => r.epoch < |w.states| && r.sender == w.states[r.epoch].ownLeaf
      case Member(id) => id in w.joined && Tenure(w, id, r.sender, r.epoch) && StillPending(w.members, id, r)
  }

  ghost predicate AllSentOk(w: World)
    requires Shape(w)
  {
    forall t {:trigger SentOk(w, t)} :: t in w.sent ==> SentOk(w, t)
  }

  ghost predicate MembershipOk(w: World) {
    Shape(w) && RecordsOk(w) && MembersOk(w) && AllSentOk(w)
  }

  ghost predicate WorldOk(w: World) {
    MembershipOk(w) && HistoryOk(w.states, w.commits)
  }

  // ---------------------------------------------------------------- tenures

  lemma AddedDistinct(s: GroupState, inp: Inputs)
    requires CommitterOk(s) && HonestCommit(s, inp.byReference, inp.byValue, inp.leafSecret)
    ensures Distinct(AddedBy(s, inp).leaves)
  {
    var rs := ProposalsAt(s, inp);
    ProposalsKeep(s, rs);
    AddsDistinct(ApplyRemoves(ApplyUpdates(s.nodes, rs).value, rs).value, rs);
  }

  /** At any epoch a leaf belongs to one member. */
  lemma TenureUnique(w: World, a: MemberId, b: MemberId, leaf: nat, e: nat)
    requires Shape(w) && Tenure(w, a, leaf, e) && Tenure(w, b, leaf, e)
    requires Distinct(LeavesAdded(w, a.commit))
    ensures a == b
  {
    TenureFirst(w, a, b, leaf, e);
    TenureFirst(w, b, a, leaf, e);
  }

  lemma TenureFirst(w: World, a: MemberId, b: MemberId, leaf: nat, e: nat)
    requires Shape(w) && Tenure(w, a, leaf, e) && Tenure(w, b, leaf, e)
    ensures a.commit >= b.commit
  {
    assert LeavesAdded(w, b.commit)[b.place] in LeavesAdded(w, b.commit);
  }

  lemma TenureKept(w: World, w': World, id: MemberId, leaf: nat, e: nat)
    requires Shape(w) && Shape(w') && Tenure(w, id, leaf, e)
    requires w.states <= w'.states && w.commits <= w'.commits
    ensures Tenure(w', id, leaf, e)
  {
    forall h | id.commit <= h < e ensures LeavesAdded(w', h) == LeavesAdded(w, h) {}
  }

  // ---------------------------------------------------------------- own updates are known

  lemma {:induction false} OwnUpdateKnown(proposals: seq<ProposalOrRef>, c: nat, m: nat,
                                          pending: map<PublicKey, PrivateKey>)
    requires m != c
    requires forall p :: p in proposals && p.ByReference? && p.reference.proposal.Update? && p.reference.sender == m ==>
               p.reference.proposal.leaf.body.key in pending
    ensures !OwnUpdate(Expected(proposals, c), m, pending).MissingKey?
  {
    if proposals != [] {
      assert proposals[0] in proposals;
      var rs := Expected(proposals, c);
      assert rs[1..] == Expected(proposals[1..], c);
      OwnUpdateKnown(proposals[1..], c, m, pending);
    }
  }

  /** Every Update of member id in the commit of its epoch has its key pending. */
  lemma UpdateRefPending(w: World, id: MemberId, r: ProposalRef)
    requires MembershipOk(w) && id in w.members
    requires w.members[id].gc.epoch < |w.commits| && r in w.commits[w.members[id].gc.epoch].inp.byReference
    requires r.proposal.Update? && r.sender == w.members[id].ownLeaf
    ensures r.proposal.leaf.body.key in w.members[id].pending
  {
    var m := w.members[id];
    assert MemberOk(w, id);
    assert RecordOk(w.commits[m.gc.epoch], m.gc.epoch, w.sent);
    var t :| t in w.sent && t.framed == r;
    assert SentOk(w, t);
    assert t.author.Member?;
    assert RecordOk(w.commits[t.author.id.commit], t.author.id.commit, w.sent);
    TenureUnique(w, t.author.id, id, m.ownLeaf, m.gc.epoch);
  }

  lemma PendingKnown(w: World, id: MemberId)
    requires MembershipOk(w) && id in w.members && w.members[id].gc.epoch < |w.commits|
    ensures
      var m := w.members[id];
      !OwnUpdate(ProposalsAt(w.states[m.gc.epoch], w.commits[m.gc.epoch].inp), m.ownLeaf, m.pending).MissingKey?
  {
    var m := w.members[id];
    assert MemberOk(w, id);
    var s, inp := w.states[m.gc.epoch], w.commits[m.gc.epoch].inp;
    var proposals := Proposed(inp.byReference, inp.byValue);
    forall p | p in proposals && p.ByReference? && p.reference.proposal.Update? && p.reference.sender == m.ownLeaf
      ensures p.reference.proposal.leaf.body.key in m.pending
    {
      var i :| 0 <= i < |proposals| && proposals[i] == p;
      assert i < |inp.byReference| && p == ByReference(inp.byReference[i]);
      UpdateRefPending(w, id, p.reference);
    }
    OwnUpdateKnown(proposals, s.ownLeaf, m.ownLeaf, m.pending);
  }

  // ---------------------------------------------------------------- steps keep the invariant

  /** w' extends w's history. */
  predicate Extends(w: World, w': World) {
    w.states <= w'.states && w.commits <= w'.commits && w.joined <= w'.joined && w.sent <= w'.sent
  }

  lemma MemberKept(w: World, w': World, id: MemberId)
    requires Shape(w) && Shape(w') && Extends(w, w') && id in w.members && MemberOk(w, id)
    requires id in w'.members
    requires
      var m, m' := w.members[id], w'.members[id];
      m' == m.(pending := m'.pending) && PendingOk(m'.pending)
    ensures MemberOk(w', id)
  {
    var m := w.members[id];
    assert w'.states[m.gc.epoch] == w.states[m.gc.epoch];
    TenureKept(w, w', id, m.ownLeaf, m.gc.epoch);
  }

  /** Only member `id` may have changed. */
  lemma MembersKept(w: World, w': World, id: MemberId)
    requires Shape(w) && Shape(w') && Extends(w, w') && MembersOk(w)
    requires forall x :: x in w'.members && x != id ==> x in w.members && w'.members[x] == w.members[x]
    requires id in w'.members ==> MemberOk(w', id)
    ensures MembersOk(w')
  {
    forall x | x in w'.members ensures MemberOk(w', x) {
      if x != id {
        assert MemberOk(w, x);
        MemberKept(w, w', x);
      }
    }
  }

  lemma AllMembersKept(w: World, w': World)
    requires Shape(w) && Shape(w') && Extends(w, w') && MembersOk(w) && w'.members == w.members
    ensures MembersOk(w')
  {
    forall x | x in w'.members ensures MemberOk(w', x) {
      assert MemberOk(w, x);
      MemberKept(w, w', x);
    }
  }

  lemma AllPendingKept(w: World)
    requires Shape(w) && AllSentOk(w)
    ensures forall t :: t in w.sent && t.author.Member? && t.framed.proposal.Update? ==>
            StillPending(w.members, t.author.id, t.framed)
  {
    forall t | t in w.sent && t.author.Member? && t.framed.proposal.Update?
      ensures StillPending(w.members, t.author.id, t.framed)
    {
      assert SentOk(w, t);
    }
  }

  lemma RecordsKept(w: World, w': World)
    requires RecordsOk(w) && w.sent <= w'.sent && w.commits <= w'.commits
    requires forall e :: |w.commits| <= e < |w'.commits| ==> RecordOk(w'.commits[e], e, w'.sent)
    ensures RecordsOk(w')
  {
    forall e | 0 <= e < |w'.commits| ensures RecordOk(w'.commits[e], e, w'.sent) {
      if e < |w.commits| { assert RecordOk(w.commits[e], e, w.sent); }
    }
  }

  /** Sent proposals stay fine when their authors' pending keys do. */
  lemma SentKept(w: World, w': World)
    requires Shape(w) && Shape(w') && Extends(w, w') && AllSentOk(w)
    requires forall t :: t in w.sent && t.author.Member? && t.framed.proposal.Update? ==>
             StillPending(w'.members, t.author.id, t.framed)
    requires forall t :: t in w'.sent && t !in w.sent ==> SentOk(w', t)
    ensures AllSentOk(w')
  {
    forall t | t in w'.sent ensures SentOk(w', t) {
      if t in w.sent {
        assert SentOk(w, t);
        OneSentKept(w, w', t);
      }
    }
  }

  lemma OneSentKept(w: World, w': World, t: Sent)
    requires Shape(w) && Shape(w') && Extends(w, w') && SentOk(w, t)
    requires t.author.Member? && t.framed.proposal.Update? ==> StillPending(w'.members, t.author.id, t.framed)
    ensures SentOk(w', t)
  {
    if t.author.Member? && t.framed.proposal.Update? {
      TenureKept(w, w', t.author.id, t.framed.sender, t.framed.epoch);
    }
  }

  /** Members other than `id` keep their pending keys. */
  lemma PendingKept(w: World, members: map<MemberId, GroupState>, id: MemberId)
    requires Shape(w) && AllSentOk(w)
    requires forall x :: x in members && x != id ==> x in w.members && members[x] == w.members[x]
    requires id in members ==> forall t :: t in w.sent && t.author == Member(id) && t.framed.proposal.Update? ==>
             StillPending(members, id, t.framed)
    ensures forall t :: t in w.sent && t.author.Member? && t.framed.proposal.Update? ==>
            StillPending(members, t.author.id, t.framed)
  {
    forall t | t in w.sent && t.author.Member? && t.framed.proposal.Update?
      ensures StillPending(members, t.author.id, t.framed)
    {
      assert SentOk(w, t);
      assert t.author == Member(t.author.id);
    }
  }

  /** Appending a commit's state and record keeps everything known about the members. */
  lemma AppendKeeps(w: World, w': World, next: GroupState, c: Record)
    requires MembershipOk(w) && w' == w.(states := w.states + [next], commits := w.commits + [c])
    requires next.gc.epoch == |w.states| && RecordOk(c, |w.commits|, w.sent)
    ensures MembershipOk(w')
  {
    assert Shape(w');
    assert Extends(w, w');
    RecordsKept(w, w');
    AllMembersKept(w, w');
    AllPendingKept(w);
    SentKept(w, w');
  }

  lemma AppendSound(states: seq<GroupState>, next: GroupState)
    requires Sound(states) && CommitterOk(next)
    ensures Sound(states + [next])
  {
    var ss := states + [next];
    forall e | 0 <= e < |ss| ensures CommitterOk(ss[e]) {
      if e < |states| { assert CommitterOk(states[e]) && ss[e] == states[e]; }
    }
  }

  lemma AppendCommits(states: seq<GroupState>, commits: seq<Record>, next: GroupState, c: Record)
    requires |states| == |commits| + 1 && CommitsOk(states, commits)
    requires CommitOk(states[|states| - 1], c, next)
    ensures CommitsOk(states + [next], commits + [c])
  {
    var ss, cc := states + [next], commits + [c];
    forall e | 0 <= e < |cc| && e + 1 < |ss| ensures CommitOk(ss[e], cc[e], ss[e + 1]) {
      AppendedCommit(states, commits, next, c, e);
    }
  }

  lemma AppendedCommit(states: seq<GroupState>, commits: seq<Record>, next: GroupState, c: Record, e: nat)
    requires |states| == |commits| + 1 && CommitsOk(states, commits) && e <= |commits|
    requires CommitOk(states[|states| - 1], c, next)
    ensures CommitOk((states + [next])[e], (commits + [c])[e], (states + [next])[e + 1])
  {
    var ss, cc := states + [next], commits + [c];
    if e < |commits| {
      assert ss[e] == states[e] && cc[e] == commits[e] && ss[e + 1] == states[e + 1];
      assert CommitOk(states[e], commits[e], states[e + 1]);
    } else {
      assert ss[e] == states[|states| - 1] && cc[e] == c && ss[e + 1] == next;
    }
  }

  lemma CommitRecordOk(s: GroupState, inp: Inputs, sent: set<Sent>)
    requires CommitterOk(s) && HonestCommit(s, inp.byReference, inp.byValue, inp.leafSecret)
    requires forall r | r in inp.byReference :: exists t | t in sent :: t.framed == r
    ensures CommitBy(s, inp).Some?
    ensures
      var r := CommitBy(s, inp).value;
      && CommitterOk(r.state) && r.state.gc.epoch == s.gc.epoch + 1
      && RecordOk(RecordOf(s, inp, r), s.gc.epoch, sent) && CommitOk(s, RecordOf(s, inp, r), r.state)
  {
    CommitSucceeds(s, inp.byReference, inp.byValue, inp.leafSecret);
    AddedDistinct(s, inp);
  }

  lemma HistoryAt(states: seq<GroupState>, commits: seq<Record>, e: nat)
    requires HistoryOk(states, commits) && e < |states|
    ensures CommitterOk(states[e])
    ensures e < |commits| && e + 1 < |states| ==> CommitOk(states[e], commits[e], states[e + 1])
  {
  }

  lemma CommitKeeps(w: World, w': World, inp: Inputs)
    requires WorldOk(w) && CommitStep(w, w', inp)
    ensures WorldOk(w')
  {
    var s := w.states[|w.states| - 1];
    HistoryAt(w.states, w.commits, |w.states| - 1);
    CommitRecordOk(s, inp, w.sent);
    var r := CommitBy(s, inp).value;
    AppendKeeps(w, w', r.state, RecordOf(s, inp, r));
    AppendSound(w.states, r.state);
    AppendCommits(w.states, w.commits, r.state, RecordOf(s, inp, r));
  }

  lemma SendKeeps(w: World, w': World, t: Sent)
    requires MembershipOk(w) && w' == w.(sent := w.sent + {t}) && SentOk(w, t)
    ensures MembershipOk(w')
  {
    RecordsKept(w, w');
    AllMembersKept(w, w');
    AllPendingKept(w);
    OneSentKept(w, w', t);
    SentKept(w, w');
  }

  lemma UpdateKeeps(w: World, w': World, id: MemberId, seed: Term)
    requires MembershipOk(w) && UpdateStep(w, w', id, seed)
    ensures MembershipOk(w')
  {
    var m, m' := w.members[id], w'.members[id];
    assert MemberOk(w, id);
    RecordsKept(w, w');
    MemberKept(w, w', id);
    MembersKept(w, w', id);
    forall t | t in w.sent && t.author == Member(id) && t.framed.proposal.Update?
      ensures StillPending(w'.members, id, t.framed)
    {
      assert SentOk(w, t);
    }
    PendingKept(w, w'.members, id);
    TenureKept(w, w', id, m.ownLeaf, m.gc.epoch);
    SentKept(w, w');
  }

  /** m' is m one epoch later, still following and still in its own leaf. */
  ghost predicate Advanced(w: World, m: GroupState, m': GroupState) {
    && m.gc.epoch + 1 < |w.states| && m.gc.epoch < |w.commits|
    && m'.gc.epoch == m.gc.epoch + 1 && Follows(m', w.states[m.gc.epoch + 1])
    && m'.ownLeaf == m.ownLeaf && m.ownLeaf !in LeavesAdded(w, m.gc.epoch)
  }

  /** The outcome of processing record c: a follower of the next state in the same leaf. */
  predicate StepsTo(m: GroupState, c: Record, next: GroupState, after: Option<GroupState>) {
    after.Some? && Follows(after.value, next) && after.value.ownLeaf == m.ownLeaf && m.ownLeaf !in c.adds.leaves
  }

  lemma MemberAdvances(s: GroupState, c: Record, next: GroupState, m: GroupState, delivered: seq<ProposalRef>)
    requires CommitterOk(s) && CommitOk(s, c, next) && Follows(m, s)
    requires NoRemove(ProposalsAt(s, c.inp), m.ownLeaf)
    requires !OwnUpdate(ProposalsAt(s, c.inp), m.ownLeaf, m.pending).MissingKey?
    requires forall r :: r in delivered ==> Authentic(m, r)
    requires forall r :: r in c.inp.byReference ==> r in delivered
    ensures StepsTo(m, c, next, ProcessCommit(m, delivered, c.msg))
  {
    MemberFollows(s, m, c.inp.byReference, c.inp.byValue, c.inp.leafSecret, delivered);
    ProposalsMember(s.nodes, ProposalsAt(s, c.inp), m.ownLeaf, m.priv, m.pending);
  }

  lemma StepsAdvance(w: World, m: GroupState, after: Option<GroupState>)
    requires Shape(w) && m.gc.epoch < |w.commits|
    requires StepsTo(m, w.commits[m.gc.epoch], w.states[m.gc.epoch + 1], after)
    ensures after.Some? && Advanced(w, m, after.value)
  {
  }

  lemma MemberAt(w: World, id: MemberId)
    requires MembershipOk(w) && id in w.members
    ensures MemberOk(w, id)
  {
  }

  /** A member that is still in the group never rejects a commit. */
  lemma ProcessFollows(w: World, id: MemberId, delivered: seq<ProposalRef>)
    requires WorldOk(w) && CanProcess(w, id, delivered)
    ensures
      var m, after := w.members[id], Processed(w, id, delivered);
      after.Some? && Advanced(w, m, after.value)
  {
    var m := w.members[id];
    var e := m.gc.epoch;
    MemberAt(w, id);
    PendingKnown(w, id);
    ProcessedSteps(w.states, w.commits, m, delivered);
    StepsAdvance(w, m, Processed(w, id, delivered));
  }

  lemma ProcessedSteps(states: seq<GroupState>, commits: seq<Record>, m: GroupState, delivered: seq<ProposalRef>)
    requires HistoryOk(states, commits) && m.gc.epoch < |commits| && m.gc.epoch + 1 < |states|
    requires Follows(m, states[m.gc.epoch])
    requires forall r :: r in delivered ==> Authentic(m, r)
    requires forall r :: r in commits[m.gc.epoch].inp.byReference ==> r in delivered
    requires
      var rs := ProposalsAt(states[m.gc.epoch], commits[m.gc.epoch].inp);
      NoRemove(rs, m.ownLeaf) && !OwnUpdate(rs, m.ownLeaf, m.pending).MissingKey?
    ensures StepsTo(m, commits[m.gc.epoch], states[m.gc.epoch + 1],
            ProcessCommit(m, delivered, commits[m.gc.epoch].msg))
  {
    var e := m.gc.epoch;
    HistoryAt(states, commits, e);
    MemberAdvances(states[e], commits[e], states[e + 1], m, delivered);
  }

  lemma TenureNext(w: World, id: MemberId, leaf: nat, e: nat)
    requires Shape(w) && Tenure(w, id, leaf, e) && e < |w.commits| && leaf !in LeavesAdded(w, e)
    ensures Tenure(w, id, leaf, e + 1)
  {
  }

  lemma ProcessKeeps(w: World, w': World, id: MemberId, delivered: seq<ProposalRef>)
    requires WorldOk(w) && ProcessStep(w, w', id, delivered)
    ensures WorldOk(w')
  {
    ProcessFollows(w, id, delivered);
    AdvanceKeeps(w, w', id, Processed(w, id, delivered).value);
  }

  lemma AdvanceKeeps(w: World, w': World, id: MemberId, m': GroupState)
    requires MembershipOk(w) && id in w.members && w' == w.(members := w.members[id := m'])
    requires Advanced(w, w.members[id], m')
    ensures MembershipOk(w')
  {
    assert MemberOk(w, id);
    TenureNext(w, id, m'.ownLeaf, w.members[id].gc.epoch);
    MovedKeeps(w, w', id);
  }

  /** A member that moved to a later epoch it follows, or left, disturbs nothing. */
  lemma MovedKeeps(w: World, w': World, id: MemberId)
    requires MembershipOk(w) && w' == w.(members := w'.members) && id in w.members
    requires forall x :: x in w'.members && x != id ==> x in w.members && w'.members[x] == w.members[x]
    requires id in w'.members ==>
      var m := w'.members[id];
      && w.members[id].gc.epoch < m.gc.epoch < |w.states| && Follows(m, w.states[m.gc.epoch])
      && Tenure(w, id, m.ownLeaf, m.gc.epoch)
    ensures MembershipOk(w')
  {
    assert MemberOk(w, id);
    RecordsKept(w, w');
    if id in w'.members { TenureKept(w, w', id, w'.members[id].ownLeaf, w'.members[id].gc.epoch); }
    MembersKept(w, w', id);
    forall t | t in w.sent && t.author == Member(id) && t.framed.proposal.Update?
      ensures StillPending(w'.members, id, t.framed)
    {
      assert SentOk(w, t);
    }
    PendingKept(w, w'.members, id);
    SentKept(w, w');
  }

  /** The outcome of joining at the given place of record c: a follower of the next state. */
  predicate JoinsTo(c: Record, place: nat, next: GroupState, j: Option<GroupState>) {
    place < |c.adds.leaves| && j.Some? && Follows(j.value, next) && j.value.ownLeaf == c.adds.leaves[place]
  }

  lemma AddedJoins(s: GroupState, c: Record, next: GroupState, place: nat, signer: nat)
    requires CommitterOk(s) && CommitOk(s, c, next) && place < |c.adds.packages|
    ensures c.welcome.Some? && JoinsTo(c, place, next, JoinAt(c, place, signer))
  {
    var kp := c.adds.packages[place];
    assert c.adds == ApplyProposals(s.nodes, ProposalsAt(s, c.inp)).value;
    JoinerFollows(s, c.inp.byReference, c.inp.byValue, c.inp.leafSecret, place, PrivateKey(kp.initKey.seed),
      PrivateKey(kp.leaf.body.key.seed), signer);
  }

  /** m is member id in the epoch right after its addition. */
  ghost predicate Entered(w: World, id: MemberId, m: GroupState)
    requires Shape(w)
  {
    && m.gc.epoch == id.commit + 1 < |w.states| && Follows(m, w.states[m.gc.epoch])
    && Tenure(w, id, m.ownLeaf, m.gc.epoch)
  }

  lemma JoinsEnter(w: World, id: MemberId, j: Option<GroupState>)
    requires Shape(w) && id.commit < |w.commits| && JoinsTo(w.commits[id.commit], id.place, w.states[id.commit + 1], j)
    ensures j.Some? && Entered(w, id, j.value)
  {
  }

  /** A Welcome is never rejected by the member it is for. */
  lemma JoiningFollows(w: World, id: MemberId, signer: nat)
    requires WorldOk(w) && CanJoin(w, id)
    ensures Joining(w, id, signer).Some? && Entered(w, id, Joining(w, id, signer).value)
  {
    JoinedAt(w.states, w.commits, id.commit, id.place, signer);
    JoinsEnter(w, id, Joining(w, id, signer));
  }

  lemma JoinedAt(states: seq<GroupState>, commits: seq<Record>, e: nat, place: nat, signer: nat)
    requires HistoryOk(states, commits) && e < |commits| && e + 1 < |states| && place < |commits[e].adds.packages|
    ensures commits[e].welcome.Some? && JoinsTo(commits[e], place, states[e + 1], JoinAt(commits[e], place, signer))
  {
    HistoryAt(states, commits, e);
    AddedJoins(states[e], commits[e], states[e + 1], place, signer);
  }

  lemma JoinKeeps(w: World, w': World, id: MemberId, signer: nat)
    requires WorldOk(w) && JoinStep(w, w', id, signer)
    ensures WorldOk(w')
  {
    JoiningFollows(w, id, signer);
    EnterKeeps(w, w', id, Joining(w, id, signer).value);
  }

  /** A first-time member that follows the committer disturbs nothing. */
  lemma EnterKeeps(w: World, w': World, id: MemberId, m: GroupState)
    requires MembershipOk(w) && id !in w.joined && w' == w.(joined := w.joined + {id}, members := w.members[id := m])
    requires Entered(w, id, m)
    ensures MembershipOk(w')
  {
    RecordsKept(w, w');
    TenureKept(w, w', id, m.ownLeaf, m.gc.epoch);
    MembersKept(w, w', id);
    NothingSentYet(w, id);
    PendingKept(w, w'.members, id);
    SentKept(w, w');
  }

  lemma NothingSentYet(w: World, id: MemberId)
    requires Shape(w) && AllSentOk(w) && id !in w.joined
    ensures forall t :: t in w.sent && t.framed.proposal.Update? ==> t.author != Member(id)
  {
    forall t | t in w.sent && t.framed.proposal.Update? ensures t.author != Member(id) { assert SentOk(w, t); }
  }

  lemma NextKeeps(w: World, w': World)
    requires WorldOk(w) && Next(w, w')
    ensures WorldOk(w')
  {
    if inp :| CommitStep(w, w', inp) {
      CommitKeeps(w, w', inp);
    } else if p :| CommitterSendStep(w, w', p) {
      SendKeeps(w, w', Sent(Committer, Framed(w.states[|w.states| - 1], p)));
    } else if id, p :| SendStep(w, w', id, p) {
      SendKeeps(w, w', Sent(Member(id), Framed(w.members[id], p)));
    } else if id, seed :| UpdateStep(w, w', id, seed) {
      UpdateKeeps(w, w', id, seed);
    } else if id, delivered :| ProcessStep(w, w', id, delivered) {
      ProcessKeeps(w, w', id, delivered);
    } else if id :| LeaveStep(w, w', id) {
      MovedKeeps(w, w', id);
    } else {
      var id, signer :| JoinStep(w, w', id, signer);
      JoinKeeps(w, w', id, signer);
    }
  }

  lemma {:induction false} RunKeeps(run: seq<World>, i: nat)
    requires Run(run) && i < |run|
    ensures WorldOk(run[i])
  {
    if i > 0 {
      RunKeeps(run, i - 1);
      assert Next(run[i - 1], run[i - 1 + 1]);
      NextKeeps(run[i - 1], run[i]);
    }
  }

  /** In every world of every run, every member agrees with the committer at its epoch. */
  lemma RunAgrees(run: seq<World>, i: nat, id: MemberId)
    requires Run(run) && i < |run| && id in run[i].members
    ensures
      var m := run[i].members[id];
      m.gc.epoch < |run[i].states| && SameEpoch(m, run[i].states[m.gc.epoch])
  {
    RunKeeps(run, i);
    assert MemberOk(run[i], id);
  }

  /** In no run does a remaining member reject a commit, or an added one its Welcome. */
  lemma RunNeverRejects(run: seq<World>, i: nat, id: MemberId, delivered: seq<ProposalRef>, signer: nat)
    requires Run(run) && i < |run|
    ensures CanProcess(run[i], id, delivered) ==> Processed(run[i], id, delivered).Some?
    ensures CanJoin(run[i], id) ==> Joining(run[i], id, signer).Some?
  {
    RunKeeps(run, i);
    if CanProcess(run[i], id, delivered) { ProcessFollows(run[i], id, delivered); }
    if CanJoin(run[i], id) { JoiningFollows(run[i], id, signer); }
  }

  /** A freshly created group can start a run. */
  lemma CreatedStarts(groupId: nat, leafSeed: Term, sigKey: nat, credential: nat, lifetime: nat)
    ensures Start(World([NewGroup(groupId, leafSeed, sigKey, credential, lifetime)], [], {}, map[], {}))
  {
    var s := NewGroup(groupId, leafSeed, sigKey, credential, lifetime);
    var leaf := s.nodes[0].leaf;
    SingleLeafOk(leaf);
    SingleLeafHashesOk(leaf);
    forall k: nat, j: nat ensures At(s.nodes, k, j) == if k == 0 && j == 0 then LeafSlot(leaf) else Blank {
      IndexCoordinates(k, j);
      IndexCoordinates(0, 0);
    }
    assert CommitterOk(s);
  }
}
