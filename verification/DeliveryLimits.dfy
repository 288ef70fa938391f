/** What the data plane's guarantee rests on: re-adding a member that is still joined from before
    breaks it, adding nobody twice is enough for it; and what holds without it: no packet is ever
    opened twice. */
module DeliveryLimits {

  import opened TreeMath
  import opened Delivery
  import opened DeliveryAgreement
  import opened DeliveryDataPlane
  import opened DeliveryRecovery
  import ReplayWindow

  // ---------------------------------------------------------------- adding nobody twice

  lemma {:induction false} MemberWasAdded(h: History, a: Actor)
    requires a in MembersAt(h) && a != FOUNDER
    ensures exists k :: 0 <= k < |h| && a in h[k].adds
  {
    if h == [] {
      InMembers(RosterAt(h), a);
    } else {
      var init, last := h[..|h| - 1], h[|h| - 1];
      assert h == init + [last];
      MembersAfter(init, last, a);
      if a in last.adds {
        assert a in h[|h| - 1].adds;
      } else {
        MemberWasAdded(init, a);
        var k :| 0 <= k < |init| && a in init[k].adds;
        assert a in h[k].adds;
      }
    }
  }

  /** A reconcile that adds nobody any earlier commit added is clear of still-joined members. */
  lemma AddingOnceIsClear(w: World, desired: seq<Actor>, resolvable: set<Actor>)
    requires Agreed(w)
    requires forall a, k | a in desired && a !in MembersAt(All(w)) && 0 <= k < |All(w)| :: a !in All(w)[k].adds
    ensures Clear(w, desired, resolvable) && Careful(w, desired, resolvable)
  {
    var members := MembersAt(All(w));
    OneCommitter(All(w), FOUNDER);
    forall a | a in NewMembers(desired, members, resolvable) && a in w.clients ensures !w.clients[a].joined {
      NewMembersAre(desired, members, resolvable, a);
      if w.clients[a].joined { NeverAddedNeverJoined(w, a); }
    }
    ClearIsCareful(w, desired, resolvable);
  }

  lemma NeverAddedNeverJoined(w: World, a: Actor)
    requires Agreed(w) && a in w.clients && a != FOUNDER && forall k | 0 <= k < |All(w)| :: a !in All(w)[k].adds
    ensures !w.clients[a].joined
  {
    if w.clients[a].joined {
      assert MemberOk(All(w), a, w.clients[a]);
      MemberWasAdded(w.clients[a].hist, a);
    }
  }

  // ---------------------------------------------------------------- a re-added member overtaken

  const Added := Change({}, [1], 0)
  const Removed := Change({1}, [], 1)
  const Readded := Change({}, [1], 2)

  const H1: History := [Added]
  const H2: History := [Added, Removed]
  const H3: History := [Added, Removed, Readded]

  function Example(overlap: nat): Config {
    Config(overlap, true, false, (h: History) => 100 * |h|, (h: History, leaf: nat) => 100 * |h| + 1 + leaf % 2)
  }

  lemma Rosters()
    ensures RosterAt([]) == [Some(0)] && RosterAt(H1) == [Some(0), Some(1)]
    ensures RosterAt(H2) == [Some(0), None] && RosterAt(H3) == [Some(0), Some(1)]
  {
    RosterNext([], Added, [Some(0)], [Some(0)]);
    assert H1 == [] + [Added];
    assert SeatAll([Some(0)], [1]) == Seat([Some(0)], 1);
    assert Seat([Some(0)], 1) == [Some(0), Some(1)];
    RosterNext(H1, Removed, [Some(0), Some(1)], [Some(0), None]);
    assert H2 == H1 + [Removed];
    RosterNext(H2, Readded, [Some(0), None], [Some(0), None]);
    assert H3 == H2 + [Readded];
    assert SeatAll([Some(0), None], [1]) == Seat([Some(0), None], 1);
    assert Seat([Some(0), None], 1) == [Some(0), Some(1)];
  }

  lemma RosterNext(h: History, c: Change, r: Roster, kept: Roster)
    requires RosterAt(h) == r && |kept| == |r|
    requires forall i | 0 <= i < |r| :: kept[i] == if r[i].Some? && r[i].value in c.removes then None else r[i]
    ensures RosterAt(h + [c]) == SeatAll(kept, c.adds)
  {
    assert (h + [c])[..|h + [c]| - 1] == h;
    assert Blanked(r, c.removes) == kept;
  }

  ghost predicate FounderAt(cfg: Config, ch: Channel, h: History, peers: map<Actor, nat>, confirmed: set<nat>,
                            pending: set<Actor>) {
    && ch.joined && ch.joinEpoch == 0 && ch.sendSeq == map[] && ch.hist == h && h != [] && ch.peerEpoch == peers
    && ch.confirmed == confirmed
    && ch.head == Some(|h| - 1) && |h| - 1 in ch.outbox && ch.outbox[|h| - 1] == h
    && ch.pendingWelcome.Keys == pending
    && |h| in ch.sas && ch.sas[|h|] == SaAt(cfg, h, FOUNDER)
  }

  /** Both members' states, and what the network and the reflector are known to hold. */
  ghost predicate Stage(cfg: Config, w: World, founder: Channel, member: Channel, n: nat, sent: set<Envelope>) {
    && w.clients == map[0 := founder, 1 := member]
    && (forall b | b in w.reflector.decided :: b < n) && (forall r | r in w.reflector.log :: |r.commit| <= n)
    && sent <= w.net && w.losses == []
  }

  ghost predicate IssuedAs(cfg: Config, ch: Channel, change: Change, e: Effect) {
    && FounderAt(cfg, e.ch, ch.hist + [change], e.ch.peerEpoch, ch.confirmed, set a | a in change.adds)
    && e.ch.peerEpoch == Seeded(map a | a in ch.peerEpoch && a in MembersAt(ch.hist + [change]) :: ch.peerEpoch[a],
                                (set a | a in change.adds) - {FOUNDER}, |ch.hist| + 1)
    && Commit(false, |ch.hist|, ch.hist + [change]) in e.out
    && forall a | a in change.adds :: Welcome(false, a, ch.hist + [change]) in e.out
  }

  lemma IssueSent(cfg: Config, ch: Channel, change: Change)
    ensures var out, h := Issue(cfg, FOUNDER, ch, change).out, ch.hist + [change];
            Commit(false, |ch.hist|, h) in out && forall a | a in change.adds :: Welcome(false, a, h) in out
  {
  }

  lemma IssueFields(cfg: Config, ch: Channel, change: Change)
    requires CanCommit(FOUNDER, ch) && ch.joinEpoch == 0 && ch.sendSeq == map[]
    ensures IssuedAs(cfg, ch, change, Issue(cfg, FOUNDER, ch, change))
  {
    Issued(cfg, FOUNDER, ch, change);
    IssuePeersAre(cfg, FOUNDER, ch, change);
    IssueSa(cfg, ch, change);
    IssueSent(cfg, ch, change);
    FieldsOf(cfg, ch, change, Issue(cfg, FOUNDER, ch, change));
  }

  lemma FieldsOf(cfg: Config, ch: Channel, change: Change, e: Effect)
    requires IssueView(ch, change, e) && ch.joinEpoch == 0 && e.ch.sendSeq == map[]
    requires var h := ch.hist + [change]; |h| in e.ch.sas && e.ch.sas[|h|] == SaAt(cfg, h, FOUNDER)
    ensures FounderAt(cfg, e.ch, ch.hist + [change], e.ch.peerEpoch, ch.confirmed, set a | a in change.adds)
  {
    assert e.ch.pendingWelcome.Keys == set a | a in change.adds;
  }

  lemma MembersOf(h: History, m: set<Actor>)
    requires forall a :: Some(a) in RosterAt(h) <==> a in m
    ensures MembersAt(h) == m
  {
    forall a ensures a in MembersAt(h) <==> a in m { InMembers(RosterAt(h), a); }
  }

  lemma DifferenceIs(h: History, desired: seq<Actor>, resolvable: set<Actor>, c: Change)
    requires 0 in desired && (c.removes != {} || c.adds != [])
    requires MembersAt(h) - (set a | a in desired) == c.removes
    requires NewMembers(desired, MembersAt(h), resolvable) == c.adds
    ensures Difference(0, h, desired, resolvable, c.nonce) == Some(c)
  {
  }

  lemma Tables()
    ensures MembersAt([]) == {0} && MembersAt(H1) == {0, 1} && MembersAt(H2) == {0} && MembersAt(H3) == {0, 1}
  {
    Rosters();
    MembersOf([], {0});
    MembersOf(H1, {0, 1});
    MembersOf(H2, {0});
    MembersOf(H3, {0, 1});
  }

  lemma AddDifference(h: History, c: Change)
    requires MembersAt(h) == {0} && c.removes == {} && c.adds == [1]
    ensures Difference(0, h, [0, 1], {1}, c.nonce) == Some(c)
  {
    assert [0, 1][..1] == [0] && [0][..0] == [];
    assert NewMembers([0], {0}, {1}) == NewMembers([], {0}, {1});
    assert NewMembers([0, 1], {0}, {1}) == [1];
    assert {0} - (set a | a in [0, 1]) == {};
    DifferenceIs(h, [0, 1], {1}, c);
  }

  lemma RemoveDifference(h: History, c: Change)
    requires MembersAt(h) == {0, 1} && c.removes == {1} && c.adds == []
    ensures Difference(0, h, [0], {}, c.nonce) == Some(c)
  {
    assert [0][..0] == [];
    assert NewMembers([0], {0, 1}, {}) == NewMembers([], {0, 1}, {});
    assert {0, 1} - (set a | a in [0]) == {1};
    DifferenceIs(h, [0], {}, c);
  }

  /** Nothing is in flight that member 1 has said. */
  ghost predicate Silent(w: World) {
    forall b :: Heartbeat(1, b) !in w.net
  }

  lemma IssueSilent(cfg: Config, w: World, ch: Channel, change: Change)
    requires Silent(w)
    ensures Silent(With(w, 0, Issue(cfg, FOUNDER, ch, change)))
  {
    var out := Issue(cfg, FOUNDER, ch, change).out;
    assert forall env | env in out :: env.Commit? || env.Welcome?;
  }

  lemma WithStage(cfg: Config, w: World, founder: Channel, member: Channel, n: nat, sent: set<Envelope>, e: Effect)
    requires Stage(cfg, w, founder, member, n, sent)
    ensures Stage(cfg, With(w, 0, e), e.ch, member, n, sent + e.out)
  {
    assert With(w, 0, e).clients == map[0 := e.ch, 1 := member];
  }

  lemma ReconcileIs(cfg: Config, ch: Channel, desired: seq<Actor>, resolvable: set<Actor>, c: Change)
    requires CanCommit(FOUNDER, ch) && Difference(0, ch.hist, desired, resolvable, c.nonce) == Some(c)
    ensures Reconcile(cfg, 0, ch, desired, resolvable, c.nonce) == Issue(cfg, FOUNDER, ch, c)
  {
  }

  /** One more step of a reachable run. */
  lemma OntoReach(cfg: Config, w: World, s: Step) returns (v: World)
    requires Reachable(cfg, {1}, w)
    ensures v == NextOnce(cfg, w, s) && Reachable(cfg, {1}, v)
  {
    v := NextOnce(cfg, w, s);
    ReachableNext(cfg, {1}, w, s);
  }

  lemma OntoReconcile(cfg: Config, w: World, desired: seq<Actor>, resolvable: set<Actor>, c: Change) returns (v: World)
    requires Reachable(cfg, {1}, w) && 0 in w.clients
    requires CanCommit(FOUNDER, w.clients[0])
    requires Difference(0, w.clients[0].hist, desired, resolvable, c.nonce) == Some(c)
    ensures Reachable(cfg, {1}, v) && v == With(w, 0, Issue(cfg, FOUNDER, w.clients[0], c))
  {
    ReconcileIs(cfg, w.clients[0], desired, resolvable, c);
    v := OntoReach(cfg, w, ReconcileTimer(0, desired, resolvable, c.nonce));
  }

  /** Adding member 1 to a group of one. */
  lemma AddFields(cfg: Config, ch: Channel, c: Change, e: Effect)
    requires IssuedAs(cfg, ch, c, e) && ch.peerEpoch == map[] && c.adds == [1]
    ensures FounderAt(cfg, e.ch, ch.hist + [c], map[1 := |ch.hist| + 1], ch.confirmed, {1})
    ensures {Commit(false, |ch.hist|, ch.hist + [c]), Welcome(false, 1, ch.hist + [c])} <= e.out
  {
    assert (set a | a in c.adds) == {1};
    assert 1 in c.adds;
  }

  lemma AddStage(cfg: Config, w: World, founder: Channel, member: Channel, sent: set<Envelope>, c: Change)
    returns (v: World, f: Channel)
    requires Reachable(cfg, {1}, w) && Stage(cfg, w, founder, member, |founder.hist|, sent)
    requires CanCommit(FOUNDER, founder)
    requires founder.joinEpoch == 0 && founder.sendSeq == map[] && founder.peerEpoch == map[]
    requires MembersAt(founder.hist) == {0} && c.removes == {} && c.adds == [1]
    ensures Reachable(cfg, {1}, v)
    ensures var h := founder.hist + [c];
            && FounderAt(cfg, f, h, map[1 := |h|], founder.confirmed, {1})
            && Stage(cfg, v, f, member, |h| - 1, sent + {Commit(false, |h| - 1, h), Welcome(false, 1, h)})
    ensures Silent(w) ==> Silent(v)
  {
    if Silent(w) { IssueSilent(cfg, w, founder, c); }
    var e := Issue(cfg, FOUNDER, founder, c);
    AddDifference(founder.hist, c);
    IssueFields(cfg, founder, c);
    AddFields(cfg, founder, c, e);
    WithStage(cfg, w, founder, member, |founder.hist|, sent, e);
    v := OntoReconcile(cfg, w, [0, 1], {1}, c);
    f := e.ch;
  }

  lemma RemoveFields(cfg: Config, ch: Channel, c: Change, e: Effect)
    requires IssuedAs(cfg, ch, c, e) && ch.peerEpoch.Keys == {1} && c.adds == [] && MembersAt(ch.hist + [c]) == {0}
    ensures FounderAt(cfg, e.ch, ch.hist + [c], map[], ch.confirmed, {})
    ensures Commit(false, |ch.hist|, ch.hist + [c]) in e.out
  {
    assert (set a | a in c.adds) == {};
    assert e.ch.peerEpoch == map[];
  }

  lemma RemoveStage(cfg: Config, w: World, founder: Channel, member: Channel, sent: set<Envelope>, c: Change)
    returns (v: World, f: Channel)
    requires Reachable(cfg, {1}, w) && Stage(cfg, w, founder, member, |founder.hist|, sent)
    requires CanCommit(FOUNDER, founder)
    requires founder.joinEpoch == 0 && founder.sendSeq == map[] && founder.peerEpoch.Keys == {1}
    requires MembersAt(founder.hist) == {0, 1} && MembersAt(founder.hist + [c]) == {0} && c.removes == {1}
    requires c.adds == []
    ensures Reachable(cfg, {1}, v)
    ensures var h := founder.hist + [c];
            && FounderAt(cfg, f, h, map[], founder.confirmed, {})
            && Stage(cfg, v, f, member, |h| - 1, sent + {Commit(false, |h| - 1, h)})
    ensures v.reflector == w.reflector && (Silent(w) ==> Silent(v))
  {
    if Silent(w) { IssueSilent(cfg, w, founder, c); }
    var e := Issue(cfg, FOUNDER, founder, c);
    RemoveDifference(founder.hist, c);
    IssueFields(cfg, founder, c);
    RemoveFields(cfg, founder, c, e);
    WithStage(cfg, w, founder, member, |founder.hist|, sent, e);
    v := OntoReconcile(cfg, w, [0], {}, c);
    f := e.ch;
  }

  /** The reflector's turn and the echo confirm the head; both messages are then gone. */
  lemma EchoStage(cfg: Config, w: World, founder: Channel, member: Channel, h: History, confirmed: set<nat>,
                  pending: set<Actor>, sent: set<Envelope>, kept: set<Envelope>)
    requires FounderAt(cfg, founder, h, founder.peerEpoch, confirmed, pending)
    requires Commit(false, |h| - 1, h) in sent && Stage(cfg, w, founder, member, |h| - 1, sent)
    requires kept <= sent && forall env | env in kept :: !env.Commit?
    ensures var v := NextOnce(cfg, NextOnce(cfg, w, ToReflector(Commit(false, |h| - 1, h))),
                              ToClient(0, Commit(true, |h| - 1, h)));
            var f := founder.(confirmed := confirmed + {|h| - 1});
            && FounderAt(cfg, f, h, founder.peerEpoch, confirmed + {|h| - 1}, pending)
            && Stage(cfg, v, f, member, |h|, kept) && v.net <= w.net && |v.reflector.log| == |w.reflector.log| + 1
  {
    var base := |h| - 1;
    assert forall i | 0 <= i < |w.reflector.log| :: w.reflector.log[i] in w.reflector.log;
    var w1 := NextOnce(cfg, w, ToReflector(Commit(false, base, h)));
    assert w1.reflector.log == w.reflector.log + [Record(base, h)];
    assert Commit(true, base, h) in w1.net && w1.clients == w.clients;
    assert OnCommit(cfg, 0, founder, true, base, h) == Some(founder.(confirmed := confirmed + {base}));
    var v := NextOnce(cfg, w1, ToClient(0, Commit(true, base, h)));
    assert v.clients == map[0 := founder.(confirmed := confirmed + {base}), 1 := member];
  }

  lemma InviteStage(cfg: Config, w: World, founder: Channel, sent: set<Envelope>)
    requires Welcome(false, 1, H1) in sent && Stage(cfg, w, founder, Blank, 1, sent)
    ensures Stage(cfg, NextOnce(cfg, w, ToReflector(Welcome(false, 1, H1))), founder, Blank, 1, {Welcome(true, 1, H1)})
  {
  }

  lemma JoinStage(cfg: Config, w: World, founder: Channel, sent: set<Envelope>, e: Effect)
    requires Welcome(true, 1, H1) in sent && Stage(cfg, w, founder, Blank, 1, sent) && e == OnWelcome(cfg, 1, Blank, H1)
    ensures Stage(cfg, NextOnce(cfg, w, ToClient(1, Welcome(true, 1, H1))), founder, e.ch, 1, {Heartbeat(1, 1)})
  {
    Joined(cfg, 1, Blank, H1);
    assert With(w, 1, e).clients == map[0 := founder, 1 := e.ch];
    assert Heartbeat(1, 1) in e.out;
  }

  lemma HearStage(cfg: Config, w: World, founder: Channel, member: Channel, sent: set<Envelope>) returns (f: Channel)
    requires FounderAt(cfg, founder, H1, map[1 := 1], {0}, {1})
    requires Heartbeat(1, 1) in sent && Stage(cfg, w, founder, member, 1, sent)
    ensures FounderAt(cfg, f, H1, map[1 := 1], {0}, {})
    ensures Stage(cfg, NextOnce(cfg, w, ToClient(0, Heartbeat(1, 1))), f, member, 1, {})
  {
    var e := OnHeartbeat(0, founder, 1, 1);
    f := e.ch;
    assert f.pendingWelcome.Keys == {};
    assert f.peerEpoch == map[1 := 1];
    assert With(w, 0, e).clients == map[0 := f, 1 := member];
  }

  lemma OneValue(m: map<Actor, nat>, k: Actor)
    requires m.Keys == {k}
    ensures m.Values == {m[k]}
  {
    assert k in m;
    forall v | v in m.Values ensures v == m[k] {
      var j :| j in m.Keys && m[j] == v;
    }
    assert m[k] in m.Values;
  }

  lemma SendStage(overlap: nat, w: World, founder: Channel, member: Channel, confirmed: set<nat>, sent: set<Envelope>)
    returns (f: Channel)
    requires FounderAt(Example(overlap), founder, H3, map[1 := 3], confirmed, {1})
    requires Stage(Example(overlap), w, founder, member, 2, sent)
    ensures Stage(Example(overlap), NextOnce(Example(overlap), w, DataTimer(0, 1)), f, member, 2,
            {Data(0, 1, 3, 301, 0)})
  {
    var cfg := Example(overlap);
    Tables();
    OneValue(founder.peerEpoch, 1);
    assert SendEpoch(cfg, founder) == 3;
    assert founder.sas[3].ownSpi == 301 by { Rosters(); assert Leaf(RosterAt(H3), 0) == 0; }
    var e := SendData(cfg, 0, founder, 1);
    f := e.ch;
    assert e.out == {Data(0, 1, 3, 301, 0)};
    assert With(w, 0, e).clients == map[0 := f, 1 := member];
  }

  lemma JoinedSpis(overlap: nat)
    ensures Judge(OnWelcome(Example(overlap), 1, Blank, H1).ch, 3, 301, 0) == Lost
    ensures Epoch(OnWelcome(Example(overlap), 1, Blank, H1).ch) == 1
  {
    var cfg := Example(overlap);
    var m := OnWelcome(cfg, 1, Blank, H1).ch;
    Joined(cfg, 1, Blank, H1);
    JoinSane(cfg, 1, H1);
    assert H1[..1] == H1;
    forall e: nat | e in m.sas ensures e == 1 && 301 !in m.inSpis[e] { assert CachedOk(cfg, 1, m, e); }
  }

  lemma LossStage(overlap: nat, w: World, founder: Channel, member: Channel)
    requires member == OnWelcome(Example(overlap), 1, Blank, H1).ch
    requires Stage(Example(overlap), w, founder, member, 2, {Data(0, 1, 3, 301, 0)})
    ensures NextOnce(Example(overlap), w, ToClient(1, Data(0, 1, 3, 301, 0))).losses == [Loss(1, 3, 1)]
  {
    JoinedSpis(overlap);
  }

  lemma EchoOn(cfg: Config, w: World, founder: Channel, member: Channel, h: History, confirmed: set<nat>,
               pending: set<Actor>, sent: set<Envelope>, kept: set<Envelope>)
    returns (v: World, f: Channel)
    requires Reachable(cfg, {1}, w) && FounderAt(cfg, founder, h, founder.peerEpoch, confirmed, pending)
    requires Commit(false, |h| - 1, h) in sent && Stage(cfg, w, founder, member, |h| - 1, sent)
    requires kept <= sent && forall env | env in kept :: !env.Commit?
    ensures Reachable(cfg, {1}, v) && Stage(cfg, v, f, member, |h|, kept) && v.net <= w.net
    ensures |v.reflector.log| == |w.reflector.log| + 1
    ensures FounderAt(cfg, f, h, founder.peerEpoch, confirmed + {|h| - 1}, pending)
  {
    EchoStage(cfg, w, founder, member, h, confirmed, pending, sent, kept);
    var w1 := OntoReach(cfg, w, ToReflector(Commit(false, |h| - 1, h)));
    v := OntoReach(cfg, w1, ToClient(0, Commit(true, |h| - 1, h)));
    f := founder.(confirmed := confirmed + {|h| - 1});
  }

  lemma Founded(cfg: Config)
    ensures CanCommit(FOUNDER, Found(cfg)) && Stage(cfg, Start(cfg, {1}), Found(cfg), Blank, 0, {})
    ensures var f := Found(cfg);
            f.hist == [] && f.joinEpoch == 0 && f.sendSeq == map[] && f.peerEpoch == map[] && f.confirmed == {}
  {
    Rosters();
    assert Start(cfg, {1}).clients == map[0 := Found(cfg), 1 := Blank];
  }

  lemma Issuing(cfg: Config, start: Channel) returns (w: World, f: Channel)
    requires CanCommit(FOUNDER, start) && Stage(cfg, Start(cfg, {1}), start, Blank, 0, {})
    requires start.hist == [] && start.joinEpoch == 0 && start.sendSeq == map[] && start.peerEpoch == map[]
    requires start.confirmed == {}
    ensures Reachable(cfg, {1}, w) && FounderAt(cfg, f, H1, map[1 := 1], {}, {1}) && Silent(w)
    ensures Stage(cfg, w, f, Blank, 0, {Commit(false, 0, H1), Welcome(false, 1, H1)})
  {
    Tables();
    assert [] + [Added] == H1;
    assert AfterOnce(cfg, Start(cfg, {1}), []) == Start(cfg, {1});
    w, f := AddStage(cfg, Start(cfg, {1}), start, Blank, {}, Added);
    var sent := {Commit(false, 0, H1), Welcome(false, 1, H1)};
    assert {} + sent == sent;
  }

  /** Member 1 added, the commit ordered and echoed. */
  lemma Adding(cfg: Config) returns (w: World, f: Channel)
    ensures Reachable(cfg, {1}, w) && FounderAt(cfg, f, H1, map[1 := 1], {0}, {1}) && Silent(w)
    ensures Stage(cfg, w, f, Blank, 1, {Welcome(false, 1, H1)})
  {
    Founded(cfg);
    var w1, f1 := Issuing(cfg, Found(cfg));
    w, f := EchoOn(cfg, w1, f1, Blank, H1, {}, {1}, {Commit(false, 0, H1), Welcome(false, 1, H1)},
      {Welcome(false, 1, H1)});
    assert {} + {0} == {0};
  }

  /** All it says on joining is where it is. */
  lemma JoinSays(cfg: Config, w: World, founder: Channel, sent: set<Envelope>)
    requires Welcome(true, 1, H1) in sent && Stage(cfg, w, founder, Blank, 1, sent) && Silent(w)
    ensures forall b :: Heartbeat(1, b) in NextOnce(cfg, w, ToClient(1, Welcome(true, 1, H1))).net ==> b == 1
  {
    var e := OnWelcome(cfg, 1, Blank, H1);
    Joined(cfg, 1, Blank, H1);
    Rosters();
    assert e.out == EmitHeartbeat(1, e.ch) && Epoch(e.ch) == 1;
    assert e.out == {Heartbeat(1, 1)};
    assert NextOnce(cfg, w, ToClient(1, Welcome(true, 1, H1))).net == w.net - {Welcome(true, 1, H1)} + e.out;
  }

  /** It joins and is heard from. */
  lemma Welcomed(cfg: Config) returns (w: World, f: Channel)
    ensures Reachable(cfg, {1}, w) && FounderAt(cfg, f, H1, map[1 := 1], {0}, {}) && Silent(w)
    ensures Stage(cfg, w, f, OnWelcome(cfg, 1, Blank, H1).ch, 1, {})
  {
    var w0, f0 := Adding(cfg);
    InviteStage(cfg, w0, f0, {Welcome(false, 1, H1)});
    var w1 := OntoReach(cfg, w0, ToReflector(Welcome(false, 1, H1)));
    assert Silent(w1);
    JoinStage(cfg, w1, f0, {Welcome(true, 1, H1)}, OnWelcome(cfg, 1, Blank, H1));
    JoinSays(cfg, w1, f0, {Welcome(true, 1, H1)});
    var w2 := OntoReach(cfg, w1, ToClient(1, Welcome(true, 1, H1)));
    f := HearStage(cfg, w2, f0, OnWelcome(cfg, 1, Blank, H1).ch, {Heartbeat(1, 1)});
    w := OntoReach(cfg, w2, ToClient(0, Heartbeat(1, 1)));
    HeardOnce(cfg, w2, f0, OnWelcome(cfg, 1, Blank, H1).ch);
  }

  lemma HeardOnce(cfg: Config, w: World, founder: Channel, member: Channel)
    requires Stage(cfg, w, founder, member, 1, {Heartbeat(1, 1)}) && forall b :: Heartbeat(1, b) in w.net ==> b == 1
    ensures Silent(NextOnce(cfg, w, ToClient(0, Heartbeat(1, 1))))
  {
    var out := OnHeartbeat(0, founder, 1, 1).out;
    assert forall env | env in out :: env.LogRequest?;
    assert NextOnce(cfg, w, ToClient(0, Heartbeat(1, 1))).net == w.net - {Heartbeat(1, 1)} + out;
  }

  lemma Removing(cfg: Config, w0: World, f0: Channel, m: Channel) returns (w: World, f: Channel)
    requires Reachable(cfg, {1}, w0) && FounderAt(cfg, f0, H1, map[1 := 1], {0}, {}) && Stage(cfg, w0, f0, m, 1, {})
    ensures Reachable(cfg, {1}, w) && FounderAt(cfg, f, H2, map[], {0}, {}) && (Silent(w0) ==> Silent(w))
    ensures Stage(cfg, w, f, m, 1, {Commit(false, 1, H2)})
  {
    assert CanCommit(FOUNDER, f0) by { Rosters(); }
    assert f0.peerEpoch.Keys == {1};
    assert MembersAt(H1) == {0, 1} && MembersAt(H1 + [Removed]) == {0} by { Tables(); assert H1 + [Removed] == H2; }
    w, f := RemoveStage(cfg, w0, f0, m, {}, Removed);
    assert H1 + [Removed] == H2;
    assert {} + {Commit(false, 1, H2)} == {Commit(false, 1, H2)};
  }

  /** It is removed, and that commit ordered and echoed, without reaching it. */
  lemma Dropped(cfg: Config, w0: World, f0: Channel, m: Channel) returns (w: World, f: Channel)
    requires Reachable(cfg, {1}, w0) && FounderAt(cfg, f0, H1, map[1 := 1], {0}, {}) && Stage(cfg, w0, f0, m, 1, {})
    ensures Reachable(cfg, {1}, w) && FounderAt(cfg, f, H2, map[], {0, 1}, {}) && (Silent(w0) ==> Silent(w))
    ensures Stage(cfg, w, f, m, 2, {})
  {
    var w1, f1 := Removing(cfg, w0, f0, m);
    w, f := EchoOn(cfg, w1, f1, m, H2, {0}, {}, {Commit(false, 1, H2)}, {});
    assert {0} + {1} == {0, 1};
  }

  /** It is added again, and sent to. */
  lemma Readding(overlap: nat, w0: World, f0: Channel, m: Channel) returns (w: World, f: Channel)
    requires var cfg := Example(overlap);
             Reachable(cfg, {1}, w0) && FounderAt(cfg, f0, H2, map[], {0, 1}, {}) && Stage(cfg, w0, f0, m, 2, {})
    ensures Reachable(Example(overlap), {1}, w) && Stage(Example(overlap), w, f, m, 2, {Data(0, 1, 3, 301, 0)})
  {
    var cfg := Example(overlap);
    assert CanCommit(FOUNDER, f0) by { Rosters(); }
    Tables();
    assert H2 + [Readded] == H3;
    var w1, f1 := AddStage(cfg, w0, f0, m, {}, Readded);
    f := SendStage(overlap, w1, f1, m, {0, 1}, {} + {Commit(false, 2, H3), Welcome(false, 1, H3)});
    w := OntoReach(cfg, w1, DataTimer(0, 1));
  }

  /** Whatever the overlap, a run can send a joined member a packet under an epoch it has not
      reached, and lose it: the member was removed and added again while unreachable. */
  lemma ReaddedIsOvertaken(overlap: nat)
    ensures exists w :: Reachable(Example(overlap), {1}, w) && Loss(1, 3, 1) in w.losses
  {
    var cfg := Example(overlap);
    var m := OnWelcome(cfg, 1, Blank, H1).ch;
    var w0, f0 := Welcomed(cfg);
    var w1, f1 := Dropped(cfg, w0, f0, m);
    var w2, f2 := Readding(overlap, w1, f1, m);
    LossStage(overlap, w2, f2, m);
    var w3 := OntoReach(cfg, w2, ToClient(1, Data(0, 1, 3, 301, 0)));
  }

  // ---------------------------------------------------------------- a re-added member that is gone

  lemma OneBehind(cfg: Config, w: World, f: Channel)
    requires Agreed(w) && FounderAt(cfg, f, H2, map[], {0, 1}, {})
    requires w.clients == map[0 := f, 1 := OnWelcome(cfg, 1, Blank, H1).ch]
    ensures All(w) == H2 && |w.reflector.log| == |All(w)| && 1 in Behind(w)
  {
    Joined(cfg, 1, Blank, H1);
    assert 1 in f.confirmed;
  }

  lemma MemberListed(v: World, a: Actor)
    requires Agreed(v) && a in v.clients && v.clients[a].joined
    ensures a in MembersAt(v.clients[a].hist)
  {
    assert MemberOk(All(v), a, v.clients[a]);
  }

  lemma GoneAfter(v: World)
    requires Agreed(v) && (1 in v.clients ==> v.clients[1].joined && v.clients[1].hist == H2)
    ensures 1 !in v.clients
  {
    Tables();
    if 1 in v.clients { MemberListed(v, 1); }
  }

  lemma OnlyFounder(w: World, v: World, f: Channel, m: Channel)
    requires w.clients == map[0 := f, 1 := m] && SameBut(w, v, 1) && 1 !in v.clients
    ensures v.clients == map[0 := f]
  {
    forall b ensures b in v.clients <==> b == 0 { if b != 1 { assert b in v.clients <==> b in w.clients; } }
  }

  /** It learns of its removal and leaves. */
  lemma Leaving(cfg: Config, w: World, f: Channel) returns (v: World)
    requires Reachable(cfg, {1}, w) && Silent(w) && FounderAt(cfg, f, H2, map[], {0, 1}, {})
    requires Stage(cfg, w, f, OnWelcome(cfg, 1, Blank, H1).ch, 2, {})
    ensures Reachable(cfg, {1}, v) && Silent(v) && v.clients == map[0 := f]
  {
    ReachedAgreed(cfg, w);
    OneBehind(cfg, w, f);
    v := Bringing(cfg, w, 1);
    ReachableThen(cfg, {1}, w, v);
    GoneAfter(v);
    OnlyFounder(w, v, f, OnWelcome(cfg, 1, Blank, H1).ch);
  }

  lemma ReachedAgreed(cfg: Config, w: World)
    requires Reachable(cfg, {1}, w)
    ensures Agreed(w)
  {
    var steps: seq<Step> :| AfterOnce(cfg, Start(cfg, {1}), steps) == w;
    ReachableAgreed(cfg, {1}, steps);
  }

  /** A member joins, is heard from, is removed and leaves, and is desired again. The committer invites
      it, but nobody is there to answer and nothing it said is in flight: the replica never recovers,
      whatever the network does. */
  lemma ReaddedIsStuck(cfg: Config)
    ensures exists w :: Reachable(cfg, {1}, w) && Stuck(w, 1) && forall v :: LeadsAnyhow(cfg, w, v) ==> !Healed(v)
  {
    var w0, f0 := Welcomed(cfg);
    var w1, f1 := Dropped(cfg, w0, f0, OnWelcome(cfg, 1, Blank, H1).ch);
    var w2 := Leaving(cfg, w1, f1);
    var w3 := InvitingAgain(cfg, w2, f1);
    ReachedAgreed(cfg, w3);
    forall v | LeadsAnyhow(cfg, w3, v) ensures !Healed(v) { NeverHealed(cfg, w3, v, 1); }
  }

  lemma InvitingAgain(cfg: Config, w: World, f: Channel) returns (v: World)
    requires Reachable(cfg, {1}, w) && Silent(w) && FounderAt(cfg, f, H2, map[], {0, 1}, {}) && w.clients == map[0 := f]
    ensures Reachable(cfg, {1}, v) && Stuck(v, 1)
  {
    assert CanCommit(FOUNDER, f) by { Rosters(); }
    Tables();
    AddDifference(H2, Readded);
    v := OntoReconcile(cfg, w, [0, 1], {1}, Readded);
    IssueFields(cfg, f, Readded);
    IssueSilent(cfg, w, f, Readded);
    assert 1 in Readded.adds;
    assert 1 in v.clients[0].pendingWelcome.Keys;
  }

  // ---------------------------------------------------------------- opened once

  ghost predicate Refused(ch: Channel, spi: nat, number: nat) {
    !ReplayWindow.Answer(WindowOf(ch, spi), number)
  }

  lemma RefusedStays(win: ReplayWindow.Window, n: nat, m: nat)
    requires !ReplayWindow.Answer(win, n)
    ensures !ReplayWindow.Answer(ReplayWindow.Next(win, m), n)
  {
  }

  lemma RefusedAfter(win: ReplayWindow.Window, n: nat)
    ensures !ReplayWindow.Answer(ReplayWindow.Next(win, n), n)
  {
  }

  lemma ApplyWindows(cfg: Config, a: Actor, ch: Channel, commit: History)
    ensures var r := Apply(cfg, a, ch, commit); r.Some? ==> r.value.replay == ch.replay
  {
    AdvanceWindows(cfg, a, ch, commit);
    assert Apply(cfg, a, ch, commit) in {None, Some(ch), Some(Advance(cfg, a, ch, commit))};
  }

  lemma AdvanceWindows(cfg: Config, a: Actor, ch: Channel, h: History)
    ensures Advance(cfg, a, ch, h).replay == ch.replay
  {
    var cached := CacheSa(cfg, a, ch.(hist := h));
    assert cached.replay == ch.replay;
  }

  lemma EffectWindows(cfg: Config, a: Actor, ch: Channel, desired: seq<Actor>, resolvable: set<Actor>, nonce: nat)
    ensures Reconcile(cfg, a, ch, desired, resolvable, nonce).ch.replay == ch.replay
    ensures Rekey(cfg, a, ch, nonce).ch.replay == ch.replay
  {
  }

  lemma {:induction false} ReplayWindows(cfg: Config, a: Actor, ch: Channel, recs: seq<Record>)
    ensures var r := Replay(cfg, a, ch, recs); r.Some? ==> r.value.replay == ch.replay
    decreases |recs|
  {
    if recs != [] {
      ApplyWindows(cfg, a, ch, recs[0].commit);
      if Epoch(ch) != recs[0].base {
        ReplayWindows(cfg, a, ch, recs[1..]);
      } else if Apply(cfg, a, ch, recs[0].commit).Some? {
        ReplayWindows(cfg, a, Apply(cfg, a, ch, recs[0].commit).value, recs[1..]);
      }
    }
  }

  ghost predicate SameWindows(before: map<Actor, Channel>, after: map<Actor, Channel>) {
    forall a | a in after :: a in before && after[a].replay == before[a].replay
  }

  lemma PutWindows(w: World, c: Actor, r: Option<Channel>)
    requires c in w.clients && (r.Some? ==> r.value.replay == w.clients[c].replay)
    ensures SameWindows(w.clients, Put(w, c, r).clients)
  {
  }

  lemma ReceiveWindows(cfg: Config, w: World, c: Actor, env: Envelope)
    requires c in w.clients && !env.Data?
    ensures SameWindows(w.clients, Receive(cfg, w, c, env).clients) && Receive(cfg, w, c, env).accepted == w.accepted
  {
    var ch := w.clients[c];
    match env
    case Commit(echo, base, commit) =>
      if echo {
        ApplyWindows(cfg, c, Confirm(ch, echo, base, commit), commit);
        PutWindows(w, c, OnCommit(cfg, c, ch, echo, base, commit));
      }
    case LogReply(dst, recs) =>
      if dst == c {
        ReplayWindows(cfg, c, ch, SortByBase(recs));
        PutWindows(w, c, OnLogReply(cfg, c, ch, recs));
      }
    case _ =>
  }

  lemma NextWindows(cfg: Config, w: World, s: Step)
    requires !(s.ToClient? && s.env.Data?)
    ensures SameWindows(w.clients, Next(cfg, w, s).clients) && Next(cfg, w, s).accepted == w.accepted
  {
    match s
    case ReconcileTimer(c, desired, resolvable, nonce) =>
      if c in w.clients { EffectWindows(cfg, c, w.clients[c], desired, resolvable, nonce); }
    case RekeyTimer(c, nonce) => if c in w.clients { EffectWindows(cfg, c, w.clients[c], [], {}, nonce); }
    case ToClient(c, env) => if c in w.clients && env in w.net { ReceiveWindows(cfg, w, c, env); }
    case _ =>
  }

  /** Opened packets are distinct and every window still refuses those its member opened. */
  ghost predicate OnceOk(w: World) {
    && (forall i, j | 0 <= i < j < |w.accepted| :: w.accepted[i] != w.accepted[j])
    && (forall p | p in w.accepted && p.receiver in w.clients :: Refused(w.clients[p.receiver], p.spi, p.number))
  }

  lemma DataOnce(cfg: Config, w: World, c: Actor, env: Envelope)
    requires OnceOk(w) && c in w.clients && env.Data?
    ensures OnceOk(Receive(cfg, w, c, env))
  {
    var ch := w.clients[c];
    var win, verdict := WindowOf(ch, env.spi), Judge(ch, env.base, env.spi, env.number);
    var v := Receive(cfg, w, c, env);
    RefusedAfter(win, env.number);
    if env.dst == c && verdict == Opened {
      var packet := Packet(c, env.spi, env.number);
      assert v.accepted == w.accepted + [packet];
      assert packet !in w.accepted;
    }
    forall p | p in v.accepted && p.receiver in v.clients ensures Refused(v.clients[p.receiver], p.spi, p.number) {
      if p in w.accepted { RefusedStays(WindowOf(w.clients[p.receiver], p.spi), p.number, env.number); }
    }
  }

  lemma {:induction false} RunOnce(cfg: Config, joiners: set<Actor>, steps: seq<Step>)
    ensures OnceOk(After(cfg, Start(cfg, joiners), steps))
  {
    if steps != [] {
      var init, s := steps[..|steps| - 1], steps[|steps| - 1];
      RunOnce(cfg, joiners, init);
      var w := After(cfg, Start(cfg, joiners), init);
      if s.ToClient? && s.env.Data? {
        if s.c in w.clients && s.env in w.net { DataOnce(cfg, w, s.c, s.env); }
      } else {
        NextWindows(cfg, w, s);
        WindowsOnce(w, Next(cfg, w, s));
      }
    }
  }

  lemma WindowsOnce(w: World, v: World)
    requires OnceOk(w) && SameWindows(w.clients, v.clients) && v.accepted == w.accepted
    ensures OnceOk(v)
  {
    forall p | p in v.accepted && p.receiver in v.clients ensures Refused(v.clients[p.receiver], p.spi, p.number) {
      assert Refused(w.clients[p.receiver], p.spi, p.number);
    }
  }

  /** However often the network repeats a packet, its receiver opens it at most once. */
  lemma OpenedOnce(cfg: Config, joiners: set<Actor>, steps: seq<Step>, i: nat, j: nat)
    requires i < j < |After(cfg, Start(cfg, joiners), steps).accepted|
    ensures var w := After(cfg, Start(cfg, joiners), steps); w.accepted[i] != w.accepted[j]
  {
    RunOnce(cfg, joiners, steps);
  }
}
