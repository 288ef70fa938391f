/** When adding a member that is still joined from before is harmless: exactly if every other member
    that stays knows it already and is at the committer's epoch. Otherwise some choice of desired
    members, with no commit after it, has a packet sent to it under an epoch it has not reached. */
module DeliveryReadding {

  import opened TreeMath
  import opened Delivery
  import opened DeliveryAgreement
  import opened DeliveryDataPlane
  import opened DeliveryRecovery

  /** A packet for a is on its way under an epoch that a, joined, has not reached. */
  ghost predicate Ahead(v: World, a: Actor) {
    && a in v.clients && v.clients[a].joined
    && exists env :: env in v.net && env.Data? && env.dst == a && env.base > Epoch(v.clients[a])
  }

  /** Member b will not be there, or is at the committer's epoch and knows a. */
  ghost predicate Knows(w: World, b: Actor, a: Actor)
    requires b in w.clients
  {
    var ch, n := w.clients[b], |All(w)|;
    RemovedIn(All(w), b, Epoch(ch), n) || (Epoch(ch) == n && a in ch.peerEpoch)
  }

  ghost predicate Heeded(w: World, a: Actor) {
    forall b | b in w.clients && w.clients[b].joined && b != a :: Knows(w, b, a)
  }

  /** The committer reconciles toward the desired members, of whom only a can be resolved. */
  function Readd(cfg: Config, w: World, a: Actor, desired: seq<Actor>, nonce: nat): World {
    Next(cfg, w, ReconcileTimer(FOUNDER, desired, {a}, nonce))
  }

  predicate NoReconcile(steps: seq<Step>) {
    forall s | s in steps :: !s.ReconcileTimer?
  }

  /** No other reconcile follows; the network may repeat anything. */
  ghost predicate OvertakesBy(cfg: Config, w: World, a: Actor, desired: seq<Actor>, nonce: nat, steps: seq<Step>) {
    a in desired && NoReconcile(steps) && Ahead(After(cfg, Readd(cfg, w, a, desired, nonce), steps), a)
  }

  /** No commit at all follows, and nothing is delivered twice. */
  ghost predicate OvertakesCalmly(cfg: Config, w: World, a: Actor, desired: seq<Actor>, nonce: nat, v: World) {
    a in desired && Leads(cfg, Readd(cfg, w, a, desired, nonce), v) && Ahead(v, a)
  }

  // ---------------------------------------------------------------- heeded, so harmless

  lemma HeededCareful(w: World, a: Actor, desired: seq<Actor>)
    requires Heeded(w, a)
    ensures Careful(w, desired, {a})
  {
    forall nonce | Difference(FOUNDER, All(w), desired, {a}, nonce).Some?
      ensures Harmless(w.clients, All(w), Difference(FOUNDER, All(w), desired, {a}, nonce).value)
    {
      HeededHarmless(w, a, desired, Difference(FOUNDER, All(w), desired, {a}, nonce).value);
    }
  }

  lemma HeededHarmless(w: World, a: Actor, desired: seq<Actor>, change: Change)
    requires Heeded(w, a) && change.adds == NewMembers(desired, MembersAt(All(w)), {a})
    ensures Harmless(w.clients, All(w), change)
  {
    var all, more := All(w), All(w) + [change];
    forall x, b | x in change.adds && x in w.clients && w.clients[x].joined && b in w.clients && w.clients[b].joined &&
      b != x
      ensures Heeds(more, b, w.clients[b], x, |all|)
    {
      NewMembersAre(desired, MembersAt(all), {a}, x);
      assert Knows(w, b, a);
      if RemovedIn(all, b, Epoch(w.clients[b]), |all|) {
        var i: nat :| Epoch(w.clients[b]) <= i <= |all| && i < |all| && b in all[i].removes;
        assert more[i] == all[i];
      }
    }
  }

  lemma {:induction false} PlaneAlong(cfg: Config, w: World, steps: seq<Step>)
    requires PlaneOk(cfg, w) && cfg.mbb && NoReconcile(steps)
    ensures PlaneOk(cfg, After(cfg, w, steps))
  {
    if steps != [] {
      var init, s := steps[..|steps| - 1], steps[|steps| - 1];
      assert s in steps && forall x | x in init :: x in steps;
      PlaneAlong(cfg, w, init);
      NextPlane(cfg, After(cfg, w, init), s);
    }
  }

  lemma PlaneNotAhead(cfg: Config, v: World, a: Actor)
    requires PlaneOk(cfg, v)
    ensures !Ahead(v, a)
  {
    forall env | env in v.net && env.Data? && env.dst == a ensures Reached(v.clients, a, env.base) {
      assert DataOk(cfg, v.clients, All(v), env);
    }
  }

  lemma HeededNeverAhead(cfg: Config, w: World, a: Actor, desired: seq<Actor>, nonce: nat, steps: seq<Step>)
    requires PlaneOk(cfg, w) && cfg.mbb && Heeded(w, a) && NoReconcile(steps)
    ensures !Ahead(After(cfg, Readd(cfg, w, a, desired, nonce), steps), a)
  {
    HeededCareful(w, a, desired);
    NextPlane(cfg, w, ReconcileTimer(FOUNDER, desired, {a}, nonce));
    PlaneAlong(cfg, Readd(cfg, w, a, desired, nonce), steps);
    PlaneNotAhead(cfg, After(cfg, Readd(cfg, w, a, desired, nonce), steps), a);
  }

  // ---------------------------------------------------------------- sending

  /** Everyone the sender knows of is at its own epoch, whose SA it holds: a packet goes out under it. */
  lemma {:induction false} SendsNow(cfg: Config, self: Actor, ch: Channel, a: Actor)
    requires ch.joined && a != self && a in MembersAt(ch.hist) && Epoch(ch) in ch.sas
    requires forall x | x in ch.peerEpoch :: ch.peerEpoch[x] == Epoch(ch)
    ensures exists env :: env in SendData(cfg, self, ch, a).out && env.Data? && env.dst == a && env.base == Epoch(ch)
  {
    var e := SendEpoch(cfg, ch);
    assert forall x | x in {Epoch(ch)} + ch.peerEpoch.Values :: x == Epoch(ch);
    assert e == Epoch(ch);
    var n := if e in ch.sendSeq then ch.sendSeq[e] else 0;
    var env := Data(self, a, e, if cfg.sharedSpi then ch.sas[e].spi else ch.sas[e].ownSpi, n);
    assert env in SendData(cfg, self, ch, a).out;
  }

  lemma SendingAhead(cfg: Config, w: World, b: Actor, a: Actor) returns (v: World)
    requires Agreed(w) && b in w.clients && a in w.clients && w.clients[a].joined && a != b
    requires Epoch(w.clients[a]) < Epoch(w.clients[b])
    requires exists env ::
               env in SendData(cfg, b, w.clients[b], a).out && env.Data? && env.dst == a &&
               env.base == Epoch(w.clients[b])
    ensures Leads(cfg, w, v) && Ahead(v, a)
  {
    v := Onto(cfg, w, DataTimer(b, a));
    var env :| env in SendData(cfg, b, w.clients[b], a).out && env.Data? && env.dst == a &&
      env.base == Epoch(w.clients[b]);
    assert env in v.net && v.clients[a] == w.clients[a];
  }

  // ---------------------------------------------------------------- the committer does not know a

  /** What the committer commits to keep just these members and add a. */
  function Keeping(w: World, keep: set<Actor>, a: Actor): Change
    requires FOUNDER in w.clients
  {
    Change(MembersAt(w.clients[FOUNDER].hist) - keep, [a], 0)
  }

  lemma {:induction false} MembersThen(h: History, keep: set<Actor>, a: Actor)
    requires a in keep && keep - {a} <= MembersAt(h)
    ensures MembersAt(h + [Change(MembersAt(h) - keep, [a], 0)]) == keep
  {
    var c := Change(MembersAt(h) - keep, [a], 0);
    forall x ensures x in MembersAt(h + [c]) <==> x in keep { MembersAfter(h, c, x); }
  }

  lemma {:induction false} OneNew(desired: seq<Actor>, members: set<Actor>, a: Actor)
    requires a !in members && desired != [] && desired[|desired| - 1] == a
    requires forall x | x in desired[..|desired| - 1] :: x in members
    ensures NewMembers(desired, members, {a}) == [a]
  {
    NoneNew(desired[..|desired| - 1], members, {a});
  }

  lemma {:induction false} NoneNew(desired: seq<Actor>, members: set<Actor>, resolvable: set<Actor>)
    requires forall x | x in desired :: x in members
    ensures NewMembers(desired, members, resolvable) == []
  {
    if desired != [] {
      assert desired[|desired| - 1] in desired && forall x | x in desired[..|desired| - 1] :: x in desired;
      NoneNew(desired[..|desired| - 1], members, resolvable);
    }
  }

  /** Reconciling toward those to keep, a last, is issuing that change. */
  lemma {:induction false} ReaddIs(cfg: Config, w: World, desired: seq<Actor>, keep: set<Actor>, a: Actor)
    requires Agreed(w) && CanCommit(FOUNDER, w.clients[FOUNDER]) && a !in MembersAt(All(w))
    requires desired != [] && desired[|desired| - 1] == a && FOUNDER in desired && keep == set x | x in desired
    requires forall x | x in desired[..|desired| - 1] :: x in MembersAt(All(w))
    ensures Readd(cfg, w, a, desired, 0) ==
            With(w, FOUNDER, Issue(cfg, FOUNDER, w.clients[FOUNDER], Keeping(w, keep, a)))
  {
    OneNew(desired, MembersAt(All(w)), a);
    assert MembersAt(All(w)) - (set x | x in desired) == MembersAt(All(w)) - keep;
    assert Difference(FOUNDER, All(w), desired, {a}, 0) == Some(Keeping(w, keep, a));
  }

  lemma {:induction false} CommitterSends(cfg: Config, ch: Channel, a: Actor)
    requires ch.joined && Covered(FOUNDER, ch) && FOUNDER in MembersAt(ch.hist) && a != FOUNDER && a !in ch.peerEpoch
    ensures var change := Change(MembersAt(ch.hist) - {FOUNDER, a}, [a], 0);
            var c := Issue(cfg, FOUNDER, ch, change).ch;
            && c.joined && c.hist == ch.hist + [change]
            && exists env :: env in SendData(cfg, FOUNDER, c, a).out && env.Data? && env.dst == a &&
                 env.base == Epoch(c)
  {
    var change := Change(MembersAt(ch.hist) - {FOUNDER, a}, [a], 0);
    var c := Issue(cfg, FOUNDER, ch, change).ch;
    MembersThen(ch.hist, {FOUNDER, a}, a);
    IssueSeeds(cfg, FOUNDER, ch, change);
    IssuePeersAre(cfg, FOUNDER, ch, change);
    IssueSa(cfg, ch, change);
    forall x | x in c.peerEpoch ensures c.peerEpoch[x] == Epoch(c) { assert x == a; }
    SendsNow(cfg, FOUNDER, c, a);
  }

  lemma {:induction false} CommitterOvertakes(cfg: Config, w: World, a: Actor) returns (v: World)
    requires PlaneOk(cfg, w) && CanCommit(FOUNDER, w.clients[FOUNDER])
    requires a in w.clients && w.clients[a].joined && a !in MembersAt(All(w)) && a !in w.clients[FOUNDER].peerEpoch
    ensures OvertakesCalmly(cfg, w, a, [FOUNDER, a], 0, v)
  {
    var ch := w.clients[FOUNDER];
    OneCommitter(All(w), FOUNDER);
    assert (set x | x in [FOUNDER, a]) == {FOUNDER, a};
    ReaddIs(cfg, w, [FOUNDER, a], {FOUNDER, a}, a);
    assert Sane(cfg, FOUNDER, ch);
    CommitterSends(cfg, ch, a);
    ReconcileAgreed(cfg, w, FOUNDER, [FOUNDER, a], {a}, 0);
    assert MemberOk(All(w), a, w.clients[a]);
    v := SendingAhead(cfg, Readd(cfg, w, a, [FOUNDER, a], 0), FOUNDER, a);
  }

  // ---------------------------------------------------------------- another member does not know a

  ghost predicate Unremoved(all: History, b: Actor, lo: nat) {
    forall i: nat | lo <= i < |all| :: b !in all[i].removes
  }

  lemma {:induction false} StaysMember(all: History, b: Actor, lo: nat)
    requires lo <= |all| && b in MembersAt(all[..lo]) && Unremoved(all, b, lo)
    ensures b in MembersAt(all)
    decreases |all| - lo
  {
    if lo == |all| {
      assert all[..lo] == all;
    } else {
      assert all[..lo + 1] == all[..lo] + [all[lo]];
      MembersAfter(all[..lo], all[lo], b);
      StaysMember(all, b, lo + 1);
    }
  }

  /** The records that take a member from epoch e to the end of the history. */
  ghost predicate Remaining(all: History, e: nat, recs: seq<Record>) {
    e + |recs| == |all| && forall i | 0 <= i < |recs| :: recs[i] == Record(e + i, all[..e + i + 1])
  }

  lemma AdvancePruned(cfg: Config, self: Actor, ch: Channel, h: History)
    requires ch.joined
    ensures var c := Advance(cfg, self, ch, h);
            c.hist == h && |h| in c.sas && forall x | x in c.peerEpoch :: x in MembersAt(h)
  {
    var moved := ch.(hist := h);
    assert !Stale(cfg, Epoch(moved), Epoch(moved));
    var cached := CacheSa(cfg, self, moved);
    assert Epoch(moved) in cached.sas && cached.hist == h;
  }

  /** What a member knows after its last commit, when a was not known before it. */
  ghost predicate Caught(all: History, b: Actor, ch: Channel, a: Actor, top: nat) {
    && ch.joined && ch.hist == all && |all| in ch.sas && Covered(b, ch)
    && (forall x | x in ch.peerEpoch :: x in MembersAt(all))
    && FOUNDER in ch.peerEpoch && ch.peerEpoch[FOUNDER] == top && a in ch.peerEpoch && ch.peerEpoch[a] == |all|
  }

  lemma {:induction false} LastStep(cfg: Config, all: History, b: Actor, ch: Channel, a: Actor, top: nat)
    requires ch.joined && Covered(b, ch) && all != [] && ch.hist == all[..|all| - 1] && Proper(all) && b != FOUNDER
    requires a != b
    requires a in all[|all| - 1].adds && a !in ch.peerEpoch && a != FOUNDER
    requires FOUNDER in ch.peerEpoch && ch.peerEpoch[FOUNDER] == top
    ensures Caught(all, b, Advance(cfg, b, ch, all), a, top)
  {
    AdvanceSeeds(cfg, b, ch, all);
    AdvancePruned(cfg, b, ch, all);
    OneCommitter(all, FOUNDER);
    assert all == all[..|all| - 1] + [all[|all| - 1]];
    MembersAfter(all[..|all| - 1], all[|all| - 1], a);
  }

  lemma {:induction false} ReplayCatches(cfg: Config, all: History, b: Actor, ch: Channel, recs: seq<Record>, a: Actor,
                                         top: nat)
    requires ch.joined && Covered(b, ch) && ch.hist <= all && Remaining(all, Epoch(ch), recs) && recs != []
    requires Proper(all)
    requires Unremoved(all, b, Epoch(ch)) && b != FOUNDER && a != b && a != FOUNDER
    requires a in all[|all| - 1].adds && a !in MembersAt(all[..|all| - 1]) && (|recs| > 1 || a !in ch.peerEpoch)
    requires FOUNDER in ch.peerEpoch && ch.peerEpoch[FOUNDER] == top
    ensures Replay(cfg, b, ch, recs).Some? && Caught(all, b, Replay(cfg, b, ch, recs).value, a, top)
    decreases |recs|
  {
    var e, commit, rest := Epoch(ch), recs[0].commit, recs[1..];
    assert recs[0] == Record(e, all[..e + 1]);
    assert commit[..|commit| - 1] == ch.hist && commit[|commit| - 1] == all[e];
    assert Apply(cfg, b, ch, commit) == Some(Advance(cfg, b, ch, commit));
    if |recs| == 1 {
      assert commit == all && rest == [];
      LastStep(cfg, all, b, ch, a, top);
    } else {
      var c := Advance(cfg, b, ch, commit);
      NextStep(cfg, all, b, ch, a, top);
      assert Remaining(all, Epoch(c), rest) by { RemainingRest(all, e, recs); }
      if |rest| == 1 { assert c.hist == all[..|all| - 1]; }
      ReplayCatches(cfg, all, b, c, rest, a, top);
    }
  }

  lemma RemainingRest(all: History, e: nat, recs: seq<Record>)
    requires Remaining(all, e, recs) && recs != []
    ensures Remaining(all, e + 1, recs[1..])
  {
    forall i | 0 <= i < |recs[1..]| ensures recs[1..][i] == Record(e + 1 + i, all[..e + 1 + i + 1]) {
      assert recs[i + 1] == Record(e + (i + 1), all[..e + (i + 1) + 1]);
    }
  }

  lemma {:induction false} NextStep(cfg: Config, all: History, b: Actor, ch: Channel, a: Actor, top: nat)
    requires ch.joined && Covered(b, ch) && ch.hist <= all && Epoch(ch) < |all| && Proper(all) && b != FOUNDER
    requires FOUNDER in ch.peerEpoch && ch.peerEpoch[FOUNDER] == top
    ensures var h := all[..Epoch(ch) + 1]; var c := Advance(cfg, b, ch, h);
            && c.joined && c.hist == h && Covered(b, c) && FOUNDER in c.peerEpoch && c.peerEpoch[FOUNDER] == top
            && (a !in MembersAt(h) ==> a !in c.peerEpoch)
  {
    var h := all[..Epoch(ch) + 1];
    assert h[..|h| - 1] == ch.hist;
    AdvanceSeeds(cfg, b, ch, h);
    AdvancePruned(cfg, b, ch, h);
    assert Proper(h);
    OneCommitter(h, FOUNDER);
  }

  /** A member that has caught up to its committer's last commit, which keeps only it, the committer and a. */
  lemma {:induction false} CaughtSends(cfg: Config, all: History, b: Actor, ch: Channel, a: Actor)
    requires Caught(all, b, ch, a, |all|) && MembersAt(all) == {FOUNDER, b, a} && a != b && a != FOUNDER && b != FOUNDER
    ensures exists env :: env in SendData(cfg, b, ch, a).out && env.Data? && env.dst == a && env.base == Epoch(ch)
  {
    forall x | x in ch.peerEpoch ensures ch.peerEpoch[x] == Epoch(ch) { assert x in {FOUNDER, b, a}; }
    SendsNow(cfg, b, ch, a);
  }

  lemma {:induction false} LogRemaining(w: World, e: nat)
    requires Agreed(w) && |w.reflector.log| == |All(w)| && e < |All(w)|
    ensures Remaining(All(w), e, w.reflector.log[e..]) && SortByBase(w.reflector.log[e..]) == w.reflector.log[e..]
  {
    SortedAlready(w.reflector.log[e..]);
  }

  /** Member b, still behind the commit that adds a, and not knowing a when it gets there. */
  ghost predicate Unaware(w: World, b: Actor, a: Actor) {
    && Agreed(w) && b in w.clients && w.clients[b].joined && b != FOUNDER && a != b && a != FOUNDER
    && var ch, all := w.clients[b], All(w);
       && Epoch(ch) < |all| && Covered(b, ch) && Unremoved(all, b, Epoch(ch)) && MembersAt(all) == {FOUNDER, b, a}
       && a in all[|all| - 1].adds && a !in MembersAt(all[..|all| - 1])
       && (Epoch(ch) + 1 == |all| ==> a !in ch.peerEpoch)
       && forall x | x in ch.peerEpoch :: ch.peerEpoch[x] < |all|
  }

  lemma {:induction false} HeardThenCaught(cfg: Config, all: History, b: Actor, ch: Channel, recs: seq<Record>,
                                           a: Actor)
    requires ch.joined && ch.hist <= all && Epoch(ch) < |all| && Covered(b, ch) && Unremoved(all, b, Epoch(ch))
    requires Proper(all)
    requires b != FOUNDER && a != b && a != FOUNDER && Remaining(all, Epoch(ch), recs)
    requires a in all[|all| - 1].adds && a !in MembersAt(all[..|all| - 1])
    requires Epoch(ch) + 1 == |all| ==> a !in ch.peerEpoch
    requires forall x | x in ch.peerEpoch :: ch.peerEpoch[x] < |all|
    ensures var heard := OnHeartbeat(b, ch, FOUNDER, |all|).ch;
            Replay(cfg, b, heard, recs).Some? && Caught(all, b, Replay(cfg, b, heard, recs).value, a, |all|)
  {
    var heard := OnHeartbeat(b, ch, FOUNDER, |all|).ch;
    assert heard.peerEpoch == ch.peerEpoch[FOUNDER := |all|];
    ReplayCatches(cfg, all, b, heard, recs, a, |all|);
  }

  /** Hearing the committer and replaying the log. */
  lemma {:induction false} Replaying(cfg: Config, w: World, b: Actor) returns (v: World)
    requires Agreed(w) && |w.reflector.log| == |All(w)| && b in Behind(w)
    ensures Agreed(v) && Leads(cfg, w, v) && SameBut(w, v, b) && Epoch(w.clients[b]) < |All(w)|
    ensures var ch := OnHeartbeat(b, w.clients[b], FOUNDER, |All(w)|).ch;
            match OnLogReply(cfg, b, ch, w.reflector.log[Epoch(w.clients[b])..])
            case None => b !in v.clients
            case Some(after) => b in v.clients && v.clients[b] == after
  {
    var w1 := Resending(cfg, w);
    var w2 := Learning(cfg, w1, b);
    var w3 := Serving(cfg, w2, b, Epoch(w.clients[b]));
    v := CatchingUp(cfg, w3, b, Epoch(w.clients[b]));
    LeadsThen(cfg, w, w1, w2);
    LeadsThen(cfg, w, w2, w3);
    LeadsThen(cfg, w, w3, v);
  }

  /** Caught up through the log, b sends to a. */
  lemma {:induction false} UnawareSends(cfg: Config, w: World, b: Actor, a: Actor) returns (v: World)
    requires Unaware(w, b, a) && |w.reflector.log| == |All(w)|
    requires a in w.clients && w.clients[a].joined && Epoch(w.clients[a]) < |All(w)|
    ensures Leads(cfg, w, v) && Ahead(v, a)
  {
    var u := Replaying(cfg, w, b);
    UnawareCaught(cfg, w, b, a);
    CaughtSends(cfg, All(w), b, u.clients[b], a);
    v := SendingAhead(cfg, u, b, a);
    LeadsThen(cfg, w, u, v);
  }

  lemma {:induction false} UnawareCaught(cfg: Config, w: World, b: Actor, a: Actor)
    requires Unaware(w, b, a) && |w.reflector.log| == |All(w)|
    ensures var ch := w.clients[b];
            var after := OnLogReply(cfg, b, OnHeartbeat(b, ch, FOUNDER, |All(w)|).ch, w.reflector.log[Epoch(ch)..]);
            after.Some? && Caught(All(w), b, after.value, a, |All(w)|)
  {
    var ch := w.clients[b];
    LogRemaining(w, Epoch(ch));
    assert MemberOk(All(w), b, ch);
    HeardThenCaught(cfg, All(w), b, ch, w.reflector.log[Epoch(ch)..], a);
  }

  /** A member that stays but does not know a, next to the committer's state. */
  ghost predicate Ignorant(cfg: Config, w: World, b: Actor, a: Actor) {
    && PlaneOk(cfg, w) && CanCommit(FOUNDER, w.clients[FOUNDER])
    && a in w.clients && w.clients[a].joined && a !in MembersAt(All(w)) && b in w.clients && w.clients[b].joined
    && a != FOUNDER && b != FOUNDER && a != b && !Knows(w, b, a)
  }

  lemma {:induction false} IgnorantStays(cfg: Config, w: World, b: Actor, a: Actor)
    requires Ignorant(cfg, w, b, a)
    ensures b in MembersAt(All(w)) && FOUNDER in MembersAt(All(w)) && Unremoved(All(w), b, Epoch(w.clients[b]))
    ensures Epoch(w.clients[b]) <= |All(w)| && Epoch(w.clients[a]) <= |All(w)|
  {
    var all, ch := All(w), w.clients[b];
    OneCommitter(all, FOUNDER);
    assert MemberOk(all, b, ch) && MemberOk(all, a, w.clients[a]);
    assert all[..Epoch(ch)] == ch.hist;
    StaysMember(all, b, Epoch(ch));
  }

  lemma {:induction false} ThenUnaware(cfg: Config, w: World, b: Actor, a: Actor, v: World)
    requires Ignorant(cfg, w, b, a) && Agreed(v) && All(v) == All(w) + [Keeping(w, {FOUNDER, b, a}, a)]
    requires b in v.clients && v.clients[b] == w.clients[b]
    ensures Unaware(v, b, a)
  {
    var all, ch, keep := All(w), w.clients[b], {FOUNDER, b, a};
    var change := Keeping(w, keep, a);
    IgnorantStays(cfg, w, b, a);
    MembersThen(all, keep, a);
    assert All(v)[..|All(v)| - 1] == all && All(v)[|all|] == change;
    assert Sane(cfg, b, ch) && PeersOk(w.clients, |all|, ch);
    forall i: nat | Epoch(ch) <= i < |All(v)|
      ensures b !in All(v)[i].removes
    {
      if i < |all| { assert All(v)[i] == all[i]; }
    }
  }

  lemma {:induction false} MemberOvertakes(cfg: Config, w: World, b: Actor, a: Actor) returns (v: World)
    requires Ignorant(cfg, w, b, a)
    ensures OvertakesCalmly(cfg, w, a, [FOUNDER, b, a], 0, v)
  {
    var keep, desired := {FOUNDER, b, a}, [FOUNDER, b, a];
    IgnorantStays(cfg, w, b, a);
    assert (set x | x in desired) == keep && desired[..2] == [FOUNDER, b];
    ReaddIs(cfg, w, desired, keep, a);
    ReconcileAgreed(cfg, w, FOUNDER, desired, {a}, 0);
    var w1 := Readd(cfg, w, a, desired, 0);
    Issued(cfg, FOUNDER, w.clients[FOUNDER], Keeping(w, keep, a));
    var w2 := Confirming(cfg, w1);
    ThenUnaware(cfg, w, b, a, w2);
    v := UnawareSends(cfg, w2, b, a);
    LeadsThen(cfg, w1, w2, v);
  }

  // ---------------------------------------------------------------- the result

  lemma CalmlyToo(cfg: Config, w: World, a: Actor, desired: seq<Actor>, nonce: nat, v: World) returns (t: seq<Step>)
    requires OvertakesCalmly(cfg, w, a, desired, nonce, v)
    ensures OvertakesBy(cfg, w, a, desired, nonce, t)
  {
    var w1 := Readd(cfg, w, a, desired, nonce);
    var steps: seq<Step> :| Calm(steps) && AfterOnce(cfg, w1, steps) == v;
    t := OnceAnyhow(cfg, w1, steps);
    var env :| env in v.net && env.Data? && env.dst == a && env.base > Epoch(v.clients[a]);
    assert env in After(cfg, w1, t).net;
  }

  lemma Unheeded(cfg: Config, w: World, a: Actor) returns (desired: seq<Actor>, v: World)
    requires PlaneOk(cfg, w) && CanCommit(FOUNDER, w.clients[FOUNDER])
    requires a in w.clients && w.clients[a].joined && a !in MembersAt(All(w)) && !Heeded(w, a)
    ensures OvertakesCalmly(cfg, w, a, desired, 0, v)
  {
    OneCommitter(All(w), FOUNDER);
    var b :| b in w.clients && w.clients[b].joined && b != a && !Knows(w, b, a);
    if b == FOUNDER {
      desired := [FOUNDER, a];
      v := CommitterOvertakes(cfg, w, a);
    } else {
      desired := [FOUNDER, b, a];
      v := MemberOvertakes(cfg, w, b, a);
    }
  }

  /** After any run of careful reconciles, with the committer free to commit: adding a member that is
      still joined, though no longer a member, can end in a packet to it under an epoch it has not
      reached if and only if some other joined member that is not about to be removed is behind the
      committer or does not know it. Then a continuation without any commit or repeated message is
      enough; otherwise no continuation without a further reconcile does it. */
  lemma OvertakesIff(cfg: Config, joiners: set<Actor>, steps: seq<Step>, a: Actor)
    requires cfg.mbb && CarefulRun(cfg, Start(cfg, joiners), steps)
    requires var w := After(cfg, Start(cfg, joiners), steps);
             && FOUNDER in w.clients && CanCommit(FOUNDER, w.clients[FOUNDER])
             && a in w.clients && w.clients[a].joined && a !in MembersAt(All(w))
    ensures var w := After(cfg, Start(cfg, joiners), steps);
            && ((exists desired, nonce, more :: OvertakesBy(cfg, w, a, desired, nonce, more)) <==> !Heeded(w, a))
            && ((exists desired, nonce, v :: OvertakesCalmly(cfg, w, a, desired, nonce, v)) <==> !Heeded(w, a))
  {
    var w := After(cfg, Start(cfg, joiners), steps);
    RunPlane(cfg, joiners, steps);
    if Heeded(w, a) {
      forall desired, nonce, more ensures !OvertakesBy(cfg, w, a, desired, nonce, more) {
        if NoReconcile(more) { HeededNeverAhead(cfg, w, a, desired, nonce, more); }
      }
      forall desired, nonce, v ensures !OvertakesCalmly(cfg, w, a, desired, nonce, v) {
        if OvertakesCalmly(cfg, w, a, desired, nonce, v) { var t := CalmlyToo(cfg, w, a, desired, nonce, v); }
      }
    } else {
      var desired, v := Unheeded(cfg, w, a);
      var t := CalmlyToo(cfg, w, a, desired, 0, v);
    }
  }
}
