/** Every member of a replica applies one sequence of commits, and the reflector's log is that
    sequence up to, at most, its last commit. */
module DeliveryAgreement {

  import opened TreeMath
  import opened Delivery

  // ---------------------------------------------------------------- rosters

  lemma {:induction false} SeatIn(r: Roster, a: Actor, x: Actor)
    ensures Some(x) in Seat(r, a) <==> x == a || Some(x) in r
  {
    if r != [] {
      assert r == [r[0]] + r[1..];
      if r[0].Some? { SeatIn(r[1..], a, x); }
    }
  }

  lemma {:induction false} SeatAllIn(r: Roster, adds: seq<Actor>, x: Actor)
    ensures Some(x) in SeatAll(r, adds) <==> x in adds || Some(x) in r
  {
    if adds != [] {
      var init := adds[..|adds| - 1];
      assert adds == init + [adds[|adds| - 1]];
      SeatAllIn(r, init, x);
      SeatIn(SeatAll(r, init), adds[|adds| - 1], x);
    }
  }

  lemma BlankedIn(r: Roster, gone: set<Actor>, x: Actor)
    ensures Some(x) in Blanked(r, gone) <==> Some(x) in r && x !in gone
  {
    var b := Blanked(r, gone);
    if Some(x) in r && x !in gone {
      var i :| 0 <= i < |r| && r[i] == Some(x);
      assert b[i] == Some(x);
    }
  }

  lemma InMembers(r: Roster, x: Actor)
    ensures x in Members(r) <==> Some(x) in r
  {
    if Some(x) in r {
      var i :| 0 <= i < |r| && r[i] == Some(x);
      assert r[i].Some? && r[i].value == x;
    }
  }

  /** A commit removes and adds exactly whom it names. */
  lemma MembersAfter(h: History, c: Change, x: Actor)
    ensures x in MembersAt(h + [c]) <==> x in c.adds || (x in MembersAt(h) && x !in c.removes)
  {
    var after := h + [c];
    assert after[..|after| - 1] == h;
    InMembers(RosterAt(after), x);
    InMembers(RosterAt(h), x);
    SeatAllIn(Blanked(RosterAt(h), c.removes), c.adds, x);
    BlankedIn(RosterAt(h), c.removes, x);
  }

  ghost predicate Proper(h: History) {
    forall k | 0 <= k < |h| :: FOUNDER !in h[k].removes && FOUNDER !in h[k].adds
  }

  lemma {:induction false} SeatAllFirst(r: Roster, adds: seq<Actor>)
    requires r != [] && r[0].Some?
    ensures SeatAll(r, adds) != [] && SeatAll(r, adds)[0] == r[0]
  {
    if adds != [] { SeatAllFirst(r, adds[..|adds| - 1]); }
  }

  lemma {:induction false} FounderFirst(h: History)
    requires Proper(h)
    ensures RosterAt(h) != [] && RosterAt(h)[0] == Some(FOUNDER)
  {
    if h != [] {
      var init := h[..|h| - 1];
      FounderFirst(init);
      SeatAllFirst(Blanked(RosterAt(init), h[|h| - 1].removes), h[|h| - 1].adds);
    }
  }

  /** The lowest leaf is the founder's for good, so nobody else ever commits. */
  lemma OneCommitter(h: History, a: Actor)
    requires Proper(h)
    ensures IsCommitter(h, a) <==> a == FOUNDER
    ensures FOUNDER in MembersAt(h)
  {
    FounderFirst(h);
    InMembers(RosterAt(h), FOUNDER);
  }

  // ---------------------------------------------------------------- the invariant

  ghost predicate MemberOk(all: History, a: Actor, ch: Channel) {
    ch.joined ==> ch.hist <= all && a in MembersAt(ch.hist) && ch.joinEpoch <= |ch.hist|
  }

  ghost predicate RegisterOk(all: History, r: Reflector) {
    && |r.log| <= |all| <= |r.log| + 1
    && (forall i | 0 <= i < |r.log| :: r.log[i] == Record(i, all[..i + 1]))
    && (forall b: nat :: b in r.decided <==> b < |r.log|)
    && (forall b | b in r.decided :: r.decided[b] == all[..b + 1])
  }

  /** n is the length of the reflector's log. */
  ghost predicate CommitterOk(all: History, n: nat, ch: Channel) {
    && ch.joined && ch.hist == all && Proper(all)
    && (all == [] ==> ch.head == None)
    && (all != [] ==> ch.head == Some(|all| - 1) && |all| - 1 in ch.outbox)
    && (forall b | b in ch.outbox :: b < |all| && ch.outbox[b] == all[..b + 1])
    && (forall b | b in ch.confirmed :: b < n)
    && (forall a | a in ch.pendingWelcome :: all != [] && ch.pendingWelcome[a] == all && a in all[|all| - 1].adds)
  }

  /** Whoever was once seen at epoch e has reached it, unless gone. */
  ghost predicate Past(clients: map<Actor, Channel>, a: Actor, e: nat) {
    a in clients ==> clients[a].joined && e <= Epoch(clients[a])
  }

  ghost predicate Contiguous(all: History, n: nat, recs: seq<Record>) {
    forall i | 0 <= i < |recs| ::
      recs[i].base == recs[0].base + i < n <= |all| && recs[i].commit == all[..recs[i].base + 1]
  }

  ghost predicate EnvelopeOk(clients: map<Actor, Channel>, all: History, n: nat, env: Envelope) {
    match env
    case Commit(echo, base, commit) => base < |all| && commit == all[..base + 1] && (echo ==> base < n)
    case Welcome(_, joiner, commit) =>
      0 < |commit| <= |all| && commit == all[..|commit|] && joiner in all[|commit| - 1].adds
    case Heartbeat(src, base) => base <= |all| && Past(clients, src, base)
    case LogRequest(src, base) => base <= |all| && Past(clients, src, base)
    case LogReply(dst, recs) => Contiguous(all, n, recs) && (recs != [] ==> Past(clients, dst, recs[0].base))
    case Data(_, _, base, _, _) => base <= |all|
  }

  ghost function All(w: World): History {
    if FOUNDER in w.clients then w.clients[FOUNDER].hist else []
  }

  ghost predicate Agreed(w: World) {
    && FOUNDER in w.clients
    && CommitterOk(All(w), |w.reflector.log|, w.clients[FOUNDER])
    && RegisterOk(All(w), w.reflector)
    && (forall a | a in w.clients :: MemberOk(All(w), a, w.clients[a]))
    && (forall env | env in w.net :: EnvelopeOk(w.clients, All(w), |w.reflector.log|, env))
  }

  // ---------------------------------------------------------------- frames

  ghost predicate Onward(before: Channel, after: Channel) {
    before.joined ==> after.joined && before.hist <= after.hist
  }

  ghost predicate AllOnward(before: map<Actor, Channel>, after: map<Actor, Channel>) {
    forall a | a in after :: a in before && Onward(before[a], after[a])
  }

  lemma EnvelopeKept(before: map<Actor, Channel>, after: map<Actor, Channel>, all: History, more: History, n: nat,
                     m: nat, env: Envelope)
    requires EnvelopeOk(before, all, n, env) && AllOnward(before, after) && all <= more && n <= m <= |more|
    ensures EnvelopeOk(after, more, m, env)
  {
    match env
    case Commit(_, base, commit) => assert more[..base + 1] == all[..base + 1];
    case Welcome(_, _, commit) => assert more[..|commit|] == all[..|commit|];
    case LogReply(_, recs) =>
      forall i | 0 <= i < |recs|
        ensures recs[i].base == recs[0].base + i < m && recs[i].commit == more[..recs[i].base + 1]
      {
        assert more[..recs[i].base + 1] == all[..recs[i].base + 1];
      }
    case _ =>
  }

  /** A member's own step, the history staying as it is. */
  lemma MoveAgreed(w: World, c: Actor, e: Effect)
    requires Agreed(w) && c in w.clients && Onward(w.clients[c], e.ch) && MemberOk(All(w), c, e.ch)
    requires c == FOUNDER ==> CommitterOk(All(w), |w.reflector.log|, e.ch)
    requires forall env | env in e.out :: EnvelopeOk(w.clients[c := e.ch], All(w), |w.reflector.log|, env)
    ensures Agreed(With(w, c, e))
  {
    var after := With(w, c, e);
    assert All(after) == All(w);
    forall env | env in after.net ensures EnvelopeOk(after.clients, All(w), |w.reflector.log|, env) {
      if env in w.net {
        EnvelopeKept(w.clients, after.clients, All(w), All(w), |w.reflector.log|, |w.reflector.log|, env);
      }
    }
  }

  lemma LeaveAgreed(w: World, c: Actor)
    requires Agreed(w) && c != FOUNDER
    ensures Agreed(Put(w, c, None))
  {
    var after := Put(w, c, None);
    assert All(after) == All(w);
    forall env | env in after.net ensures EnvelopeOk(after.clients, All(w), |w.reflector.log|, env) {
      EnvelopeKept(w.clients, after.clients, All(w), All(w), |w.reflector.log|, |w.reflector.log|, env);
    }
  }

  // ---------------------------------------------------------------- the committer's steps

  ghost predicate IssueView(ch: Channel, change: Change, e: Effect) {
    && e.ch.joined && e.ch.hist == ch.hist + [change] && e.ch.joinEpoch == ch.joinEpoch
    && e.ch.outbox == ch.outbox[Epoch(ch) := e.ch.hist] && e.ch.head == Some(Epoch(ch))
    && e.ch.confirmed == ch.confirmed
    && (forall a :: a in e.ch.pendingWelcome <==> a in change.adds)
    && (forall a | a in e.ch.pendingWelcome :: e.ch.pendingWelcome[a] == e.ch.hist)
    && (forall env | env in e.out ::
          env == Commit(false, Epoch(ch), e.ch.hist) ||
          (env.Welcome? && !env.echo && env.commit == e.ch.hist && env.joiner in change.adds))
  }

  lemma Issued(cfg: Config, self: Actor, ch: Channel, change: Change)
    requires CanCommit(self, ch)
    ensures IssueView(ch, change, Issue(cfg, self, ch, change))
  {
  }

  lemma Rekeyed(cfg: Config, self: Actor, ch: Channel, nonce: nat)
    requires CanCommit(self, ch)
    ensures IssueView(ch, Change({}, [], nonce), Rekey(cfg, self, ch, nonce))
  {
  }

  lemma IssueRegister(all: History, change: Change, r: Reflector)
    requires RegisterOk(all, r) && |r.log| == |all|
    ensures RegisterOk(all + [change], r)
  {
    var more := all + [change];
    forall i | 0 <= i < |r.log| ensures r.log[i] == Record(i, more[..i + 1]) { assert more[..i + 1] == all[..i + 1]; }
    forall b | b in r.decided ensures r.decided[b] == more[..b + 1] { assert more[..b + 1] == all[..b + 1]; }
  }

  lemma IssueCommitter(all: History, change: Change, ch: Channel, e: Effect)
    requires CommitterOk(all, |all|, ch) && FOUNDER !in change.removes && FOUNDER !in change.adds
    requires IssueView(ch, change, e)
    ensures CommitterOk(e.ch.hist, |all|, e.ch)
  {
    var more := e.ch.hist;
    assert more[..|all| + 1] == more;
    forall b | b in e.ch.outbox ensures b < |more| && e.ch.outbox[b] == more[..b + 1] {
      if b != |all| { assert more[..b + 1] == all[..b + 1]; }
    }
  }

  lemma IssueEnvelopes(w: World, change: Change, e: Effect, env: Envelope)
    requires Agreed(w) && IssueView(w.clients[FOUNDER], change, e) && env in With(w, FOUNDER, e).net
    ensures EnvelopeOk(w.clients[FOUNDER := e.ch], e.ch.hist, |w.reflector.log|, env)
  {
    var more := e.ch.hist;
    assert more[|All(w)|] == change && more[..|more|] == more;
    if env in w.net {
      EnvelopeKept(w.clients, w.clients[FOUNDER := e.ch], All(w), more, |w.reflector.log|, |w.reflector.log|, env);
    }
  }

  /** A new commit is issued only when the log already holds every earlier one. */
  lemma IssueAgreed(w: World, change: Change, e: Effect)
    requires Agreed(w) && CanCommit(FOUNDER, w.clients[FOUNDER])
    requires FOUNDER !in change.removes && FOUNDER !in change.adds && IssueView(w.clients[FOUNDER], change, e)
    ensures |w.reflector.log| == |All(w)| && Agreed(With(w, FOUNDER, e))
  {
    var after := With(w, FOUNDER, e);
    assert |w.reflector.log| == |All(w)|;
    IssueCommitter(All(w), change, w.clients[FOUNDER], e);
    IssueRegister(All(w), change, w.reflector);
    OneCommitter(e.ch.hist, FOUNDER);
    forall a | a in after.clients ensures MemberOk(All(after), a, after.clients[a]) {
      assert a != FOUNDER ==> MemberOk(All(w), a, w.clients[a]);
    }
    forall env | env in after.net ensures EnvelopeOk(after.clients, All(after), |w.reflector.log|, env) {
      IssueEnvelopes(w, change, e, env);
    }
  }

  lemma {:induction false} NewMembersAre(desired: seq<Actor>, members: set<Actor>, resolvable: set<Actor>, a: Actor)
    ensures a in NewMembers(desired, members, resolvable) <==> a in desired && a !in members && a in resolvable
  {
    if desired != [] {
      assert desired == desired[..|desired| - 1] + [desired[|desired| - 1]];
      NewMembersAre(desired[..|desired| - 1], members, resolvable, a);
    }
  }

  lemma ReconcileAgreed(cfg: Config, w: World, c: Actor, desired: seq<Actor>, resolvable: set<Actor>, nonce: nat)
    requires Agreed(w) && c in w.clients
    ensures Agreed(With(w, c, Reconcile(cfg, c, w.clients[c], desired, resolvable, nonce)))
  {
    var ch := w.clients[c];
    var d := Difference(c, ch.hist, desired, resolvable, nonce);
    if CanCommit(c, ch) && d.Some? {
      OneCommitter(ch.hist, c);
      NewMembersAre(desired, MembersAt(ch.hist), resolvable, FOUNDER);
      ChangeAgreed(cfg, w, d.value);
    } else {
      MoveAgreed(w, c, Effect(ch, {}));
    }
  }

  lemma ChangeAgreed(cfg: Config, w: World, change: Change)
    requires Agreed(w) && CanCommit(FOUNDER, w.clients[FOUNDER])
    requires FOUNDER !in change.removes && FOUNDER !in change.adds
    ensures Agreed(With(w, FOUNDER, Issue(cfg, FOUNDER, w.clients[FOUNDER], change)))
  {
    Issued(cfg, FOUNDER, w.clients[FOUNDER], change);
    IssueAgreed(w, change, Issue(cfg, FOUNDER, w.clients[FOUNDER], change));
  }

  lemma RekeyAgreed(cfg: Config, w: World, c: Actor, nonce: nat)
    requires Agreed(w) && c in w.clients
    ensures Agreed(With(w, c, Rekey(cfg, c, w.clients[c], nonce)))
  {
    var ch := w.clients[c];
    if CanCommit(c, ch) {
      OneCommitter(ch.hist, c);
      Rekeyed(cfg, c, ch, nonce);
      IssueAgreed(w, Change({}, [], nonce), Rekey(cfg, c, ch, nonce));
    } else {
      MoveAgreed(w, c, Effect(ch, {}));
    }
  }

  lemma HeartbeatAgreed(w: World, c: Actor)
    requires Agreed(w) && c in w.clients
    ensures Agreed(w.(net := w.net + EmitHeartbeat(c, w.clients[c])))
  {
    var ch := w.clients[c];
    var out := EmitHeartbeat(c, ch);
    assert w.clients[c := ch] == w.clients;
    forall env | env in out ensures EnvelopeOk(w.clients, All(w), |w.reflector.log|, env) {
      if !env.Heartbeat? {
        OneCommitter(ch.hist, c);
        assert All(w)[..|All(w)|] == All(w);
      }
    }
    MoveAgreed(w, c, Effect(ch, out));
    assert With(w, c, Effect(ch, out)) == w.(net := w.net + out);
  }

  // ---------------------------------------------------------------- members

  /** A handler's result against the state it started from: gone, or onward along the history. */
  ghost predicate Followed(all: History, a: Actor, before: Channel, after: Option<Channel>) {
    after.Some? ==>
      && Onward(before, after.value) && MemberOk(all, a, after.value)
      && after.value.joined == before.joined && after.value.joinEpoch == before.joinEpoch
  }

  lemma Advanced(cfg: Config, a: Actor, ch: Channel, h: History)
    requires ch.joined
    ensures var c := Advance(cfg, a, ch, h); c.joined && c.hist == h && c.joinEpoch == ch.joinEpoch
  {
  }

  lemma ApplyFollows(cfg: Config, all: History, a: Actor, ch: Channel, commit: History)
    requires MemberOk(all, a, ch) && ch.joined && commit <= all && commit != [] && commit[..|commit| - 1] == ch.hist
    ensures Followed(all, a, ch, Apply(cfg, a, ch, commit))
    ensures match Apply(cfg, a, ch, commit)
            case None => a in commit[|commit| - 1].removes
            case Some(c) => c.hist == commit
  {
    var last := commit[|commit| - 1];
    assert commit == ch.hist + [last];
    MembersAfter(ch.hist, last, a);
    Advanced(cfg, a, ch, commit);
    assert Apply(cfg, a, ch, commit) == if a in last.removes then None else Some(Advance(cfg, a, ch, commit));
  }

  lemma CommitFollows(cfg: Config, all: History, a: Actor, ch: Channel, base: nat, commit: History)
    requires MemberOk(all, a, ch) && base < |all| && commit == all[..base + 1]
    ensures Followed(all, a, ch, OnCommit(cfg, a, ch, true, base, commit))
  {
    if ch.joined {
      var sure := Confirm(ch, true, base, commit);
      if Epoch(sure) == base {
        assert commit[..|commit| - 1] == sure.hist;
        ApplyFollows(cfg, all, a, sure, commit);
      }
    }
  }

  lemma CommitAgreed(cfg: Config, w: World, c: Actor, base: nat, commit: History)
    requires Agreed(w) && c in w.clients && EnvelopeOk(w.clients, All(w), |w.reflector.log|, Commit(true, base, commit))
    ensures Agreed(Put(w, c, OnCommit(cfg, c, w.clients[c], true, base, commit)))
  {
    var ch := w.clients[c];
    var r := OnCommit(cfg, c, ch, true, base, commit);
    CommitFollows(cfg, All(w), c, ch, base, commit);
    if c == FOUNDER { assert r == Some(Confirm(ch, true, base, commit)); }
    PutAgreed(w, c, r);
  }

  lemma PutAgreed(w: World, c: Actor, r: Option<Channel>)
    requires Agreed(w) && c in w.clients && Followed(All(w), c, w.clients[c], r)
    requires c == FOUNDER ==> r.Some? && CommitterOk(All(w), |w.reflector.log|, r.value)
    ensures Agreed(Put(w, c, r))
  {
    if r.None? {
      LeaveAgreed(w, c);
    } else {
      MoveAgreed(w, c, Effect(r.value, {}));
      assert With(w, c, Effect(r.value, {})) == Put(w, c, r);
    }
  }

  /** A joiner starts at the epoch its Welcome was made for, a member there, and says so. */
  ghost predicate JoinView(ch: Channel, self: Actor, commit: History, e: Effect) {
    && e.ch.joined && e.ch.hist == commit && e.ch.joinEpoch == |commit|
    && e.out == EmitHeartbeat(self, e.ch)
  }

  lemma Joined(cfg: Config, self: Actor, ch: Channel, commit: History)
    requires !ch.joined && commit != [] && self in commit[|commit| - 1].adds
    ensures JoinView(ch, self, commit, OnWelcome(cfg, self, ch, commit))
  {
    var c := CacheSa(cfg, self, ch.(joined := true, hist := commit, joinEpoch := |commit|));
    var d := OnWelcome(cfg, self, ch, commit).ch;
    assert d == c.(peerEpoch := d.peerEpoch);
  }

  lemma WelcomeAgreed(cfg: Config, w: World, c: Actor, commit: History)
    requires Agreed(w) && c in w.clients && EnvelopeOk(w.clients, All(w), |w.reflector.log|, Welcome(true, c, commit))
    ensures Agreed(With(w, c, OnWelcome(cfg, c, w.clients[c], commit)))
  {
    var ch := w.clients[c];
    if ch.joined {
      MoveAgreed(w, c, Effect(ch, {}));
    } else {
      Joined(cfg, c, ch, commit);
      JoinAgreed(w, c, commit, OnWelcome(cfg, c, ch, commit));
    }
  }

  lemma JoinAgreed(w: World, c: Actor, commit: History, e: Effect)
    requires Agreed(w) && c in w.clients && !w.clients[c].joined && JoinView(w.clients[c], c, commit, e)
    requires EnvelopeOk(w.clients, All(w), |w.reflector.log|, Welcome(true, c, commit))
    ensures Agreed(With(w, c, e))
  {
    var init, last := commit[..|commit| - 1], commit[|commit| - 1];
    assert commit == init + [last];
    MembersAfter(init, last, c);
    assert Proper(commit) by {
      forall k | 0 <= k < |commit|
        ensures FOUNDER !in commit[k].removes && FOUNDER !in commit[k].adds
      {
        assert commit[k] == All(w)[k];
      }
    }
    OneCommitter(commit, c);
    assert e.out == {Heartbeat(c, |commit|)};
    MoveAgreed(w, c, e);
  }

  lemma BeatAgreed(w: World, c: Actor, src: Actor, base: nat)
    requires Agreed(w) && c in w.clients
    ensures Agreed(With(w, c, OnHeartbeat(c, w.clients[c], src, base)))
  {
    MoveAgreed(w, c, OnHeartbeat(c, w.clients[c], src, base));
  }

  // ---------------------------------------------------------------- catching up

  ghost predicate Ascending(recs: seq<Record>) {
    forall i, j | 0 <= i < j < |recs| :: recs[i].base < recs[j].base
  }

  lemma {:induction false} SortedAlready(recs: seq<Record>)
    requires Ascending(recs)
    ensures SortByBase(recs) == recs
  {
    if recs != [] {
      SortedAlready(recs[..|recs| - 1]);
      assert recs == recs[..|recs| - 1] + [recs[|recs| - 1]];
    }
  }

  lemma {:induction false} LogFrom(log: seq<Record>, base: nat)
    requires forall i | 0 <= i < |log| :: log[i].base == i
    ensures From(log, base) == if base <= |log| then log[base..] else []
  {
    if log != [] {
      var init, last := log[..|log| - 1], log[|log| - 1];
      assert log == init + [last];
      LogFrom(init, base);
      if base <= |init| { assert log[base..] == init[base..] + [last]; }
    }
  }

  /** A catch-up reply is the log from the requested base on, in order. */
  lemma ServedIsSuffix(all: History, r: Reflector, src: Actor, base: nat)
    requires RegisterOk(all, r)
    ensures Serve(r, src, base) == {LogReply(src, if base <= |r.log| then r.log[base..] else [])}
  {
    LogFrom(r.log, base);
    SortedAlready(From(r.log, base));
  }

  lemma ContiguousTail(all: History, n: nat, recs: seq<Record>)
    requires Contiguous(all, n, recs) && recs != []
    ensures Contiguous(all, n, recs[1..])
  {
    var rest := recs[1..];
    forall i | 0 <= i < |rest|
      ensures rest[i].base == rest[0].base + i < n <= |all| && rest[i].commit == all[..rest[i].base + 1]
    { assert rest[i] == recs[i + 1] && recs[1].base == recs[0].base + 1; }
  }

  /** Replaying contiguous records from at or before the member's epoch takes it past the last. */
  lemma {:induction false} ReplayFollows(cfg: Config, all: History, n: nat, a: Actor, ch: Channel, recs: seq<Record>)
    requires MemberOk(all, a, ch) && ch.joined && Contiguous(all, n, recs)
    requires recs != [] ==> recs[0].base <= Epoch(ch)
    ensures Followed(all, a, ch, Replay(cfg, a, ch, recs))
    ensures recs != [] && Replay(cfg, a, ch, recs).Some? ==>
            Epoch(Replay(cfg, a, ch, recs).value) > recs[|recs| - 1].base
    ensures Epoch(ch) >= n ==> Replay(cfg, a, ch, recs) == Some(ch)
    decreases |recs|
  {
    if recs != [] {
      var rest := recs[1..];
      ContiguousTail(all, n, recs);
      if |recs| > 1 { assert rest[0] == recs[1]; assert rest[|rest| - 1] == recs[|recs| - 1]; }
      if Epoch(ch) != recs[0].base {
        ReplayFollows(cfg, all, n, a, ch, rest);
      } else {
        var commit := recs[0].commit;
        assert commit == all[..recs[0].base + 1];
        assert commit[..|commit| - 1] == ch.hist;
        ApplyFollows(cfg, all, a, ch, commit);
        var r := Apply(cfg, a, ch, commit);
        if r.Some? { ReplayFollows(cfg, all, n, a, r.value, rest); }
      }
    }
  }

  lemma LogReplyAgreed(cfg: Config, w: World, c: Actor, recs: seq<Record>)
    requires Agreed(w) && c in w.clients && EnvelopeOk(w.clients, All(w), |w.reflector.log|, LogReply(c, recs))
    ensures Agreed(Put(w, c, OnLogReply(cfg, c, w.clients[c], recs)))
    ensures recs != [] ==>
      match OnLogReply(cfg, c, w.clients[c], recs)
      case None => true
      case Some(after) => Epoch(after) > recs[|recs| - 1].base
  {
    var ch := w.clients[c];
    SortedAlready(recs);
    var r := OnLogReply(cfg, c, ch, recs);
    if ch.joined { ReplayFollows(cfg, All(w), |w.reflector.log|, c, ch, recs); }
    if c == FOUNDER || !ch.joined {
      if recs == [] || !ch.joined { assert r == Some(ch); } else { FounderIgnores(cfg, w, recs); }
    }
    PutAgreed(w, c, r);
  }

  lemma FounderIgnores(cfg: Config, w: World, recs: seq<Record>)
    requires Agreed(w) && Contiguous(All(w), |w.reflector.log|, recs) && recs != []
    ensures Replay(cfg, FOUNDER, w.clients[FOUNDER], recs) == Some(w.clients[FOUNDER])
  {
    assert recs[0].base < |w.reflector.log|;
    ReplayFollows(cfg, All(w), |w.reflector.log|, FOUNDER, w.clients[FOUNDER], recs);
  }

  // ---------------------------------------------------------------- the reflector

  lemma OrderAgreed(w: World, base: nat, commit: History)
    requires Agreed(w) && EnvelopeOk(w.clients, All(w), |w.reflector.log|, Commit(false, base, commit))
    ensures Agreed(Reflect(w, Commit(false, base, commit)))
  {
    var r := w.reflector;
    var n := |r.log|;
    var ordered := Order(r, base, commit);
    var after := Reflect(w, Commit(false, base, commit));
    assert |commit| == base + 1;
    if base < n {
      assert r.log[base].commit == commit;
      assert ordered.reflector == Reflector(r.decided[base := commit], r.log);
    } else {
      forall i | 0 <= i < n ensures r.log[i].commit != commit { assert |r.log[i].commit| == i + 1; }
      assert ordered.reflector == Reflector(r.decided[base := commit], r.log + [Record(base, commit)]);
    }
    forall env | env in after.net ensures EnvelopeOk(after.clients, All(w), |after.reflector.log|, env) {
      if env in w.net {
        EnvelopeKept(w.clients, w.clients, All(w), All(w), n, |after.reflector.log|, env);
      }
    }
  }

  lemma PublishAgreed(w: World, env: Envelope)
    requires Agreed(w) && EnvelopeOk(w.clients, All(w), |w.reflector.log|, env)
    ensures Agreed(w.(net := w.net + {env}))
  {
  }

  lemma ServeAgreed(w: World, src: Actor, base: nat)
    requires Agreed(w) && EnvelopeOk(w.clients, All(w), |w.reflector.log|, LogRequest(src, base))
    ensures Agreed(w.(net := w.net + Serve(w.reflector, src, base)))
  {
    var log := w.reflector.log;
    var recs := if base <= |log| then log[base..] else [];
    ServedIsSuffix(All(w), w.reflector, src, base);
    SuffixContiguous(All(w), w.reflector, base);
    PublishAgreed(w, LogReply(src, recs));
  }

  lemma SuffixContiguous(all: History, r: Reflector, base: nat)
    requires RegisterOk(all, r)
    ensures base <= |r.log| ==> Contiguous(all, |r.log|, r.log[base..])
    ensures base < |r.log| ==> r.log[base..][0].base == base
  {
  }

  lemma ReflectAgreed(w: World, env: Envelope)
    requires Agreed(w) && env in w.net
    ensures Agreed(Reflect(w, env))
  {
    match env
    case Commit(false, base, commit) => OrderAgreed(w, base, commit);
    case Welcome(false, joiner, commit) => PublishAgreed(w, Welcome(true, joiner, commit));
    case LogRequest(src, base) => ServeAgreed(w, src, base);
    case _ =>
  }

  // ---------------------------------------------------------------- every run

  lemma ReceiveAgreed(cfg: Config, w: World, c: Actor, env: Envelope)
    requires Agreed(w) && c in w.clients && env in w.net
    ensures Agreed(Receive(cfg, w, c, env))
  {
    match env
    case Commit(echo, base, commit) => if echo { CommitAgreed(cfg, w, c, base, commit); }
    case Welcome(echo, joiner, commit) => if echo && joiner == c { WelcomeAgreed(cfg, w, c, commit); }
    case Heartbeat(src, base) => if src != c { BeatAgreed(w, c, src, base); }
    case LogReply(dst, recs) => if dst == c { LogReplyAgreed(cfg, w, c, recs); }
    case Data(_, dst, base, spi, number) => DataAgreed(w, c, base, spi, number);
    case _ =>
  }

  lemma DataAgreed(w: World, c: Actor, base: nat, spi: nat, number: nat)
    requires Agreed(w) && c in w.clients
    ensures Agreed(With(w, c, Effect(OnData(w.clients[c], base, spi, number), {})))
  {
    MoveAgreed(w, c, Effect(OnData(w.clients[c], base, spi, number), {}));
  }

  lemma SendAgreed(cfg: Config, w: World, c: Actor, dst: Actor)
    requires Agreed(w) && c in w.clients
    ensures Agreed(With(w, c, SendData(cfg, c, w.clients[c], dst)))
  {
    var ch := w.clients[c];
    assert Epoch(ch) in {Epoch(ch)} + ch.peerEpoch.Values;
    MoveAgreed(w, c, SendData(cfg, c, ch, dst));
  }

  lemma NextAgreed(cfg: Config, w: World, s: Step)
    requires Agreed(w)
    ensures Agreed(Next(cfg, w, s))
  {
    match s
    case ReconcileTimer(c, desired, resolvable, nonce) =>
      if c in w.clients { ReconcileAgreed(cfg, w, c, desired, resolvable, nonce); }
    case RekeyTimer(c, nonce) => if c in w.clients { RekeyAgreed(cfg, w, c, nonce); }
    case HeartbeatTimer(c) => if c in w.clients { HeartbeatAgreed(w, c); }
    case DataTimer(c, dst) =>
      if c in w.clients { SendAgreed(cfg, w, c, dst); }
    case ToClient(c, env) => if c in w.clients && env in w.net { ReceiveAgreed(cfg, w, c, env); }
    case ToReflector(env) => if env in w.net { ReflectAgreed(w, env); }
  }

  lemma {:induction false} RunAgreed(cfg: Config, joiners: set<Actor>, steps: seq<Step>)
    ensures Agreed(After(cfg, Start(cfg, joiners), steps))
  {
    if steps == [] {
      OneCommitter([], FOUNDER);
    } else {
      RunAgreed(cfg, joiners, steps[..|steps| - 1]);
      NextAgreed(cfg, After(cfg, Start(cfg, joiners), steps[..|steps| - 1]), steps[|steps| - 1]);
    }
  }

  /** Under any drops, duplicates, delays, partitions and outages: two joined members at one epoch
      have applied the same commits, a prefix of the committer's. */
  lemma SameCommits(cfg: Config, joiners: set<Actor>, steps: seq<Step>, a: Actor, b: Actor)
    requires var w := After(cfg, Start(cfg, joiners), steps);
             a in w.clients && w.clients[a].joined && b in w.clients && w.clients[b].joined
    ensures var w := After(cfg, Start(cfg, joiners), steps);
            && w.clients[a].hist <= All(w)
            && (Epoch(w.clients[a]) <= Epoch(w.clients[b]) ==> w.clients[a].hist <= w.clients[b].hist)
  {
    RunAgreed(cfg, joiners, steps);
  }

  /** The log is the committer's history, one record per base in order; only the head may still be
      missing from it, and then it is unconfirmed. */
  ghost predicate Logged(log: seq<Record>, committer: Channel) {
    && (forall i | 0 <= i < |log| :: i < Epoch(committer) && log[i] == Record(i, committer.hist[..i + 1]))
    && match committer.head
       case None => log == [] && committer.hist == []
       case Some(head) =>
         && Epoch(committer) == head + 1
         && (|log| == head + 1 || (|log| == head && head !in committer.confirmed))
  }

  /** Exactly one record, the committer's, for every base below the head. */
  lemma {:induction false} LogComplete(cfg: Config, joiners: set<Actor>, steps: seq<Step>)
    ensures var w := After(cfg, Start(cfg, joiners), steps);
            FOUNDER in w.clients && Logged(w.reflector.log, w.clients[FOUNDER])
  {
    RunAgreed(cfg, joiners, steps);
  }

  /** A delivered log reply takes its receiver past the highest base served, or out of the group. */
  lemma LogReplyCatchesUp(cfg: Config, joiners: set<Actor>, steps: seq<Step>, c: Actor, recs: seq<Record>, r: Record)
    requires var w := After(cfg, Start(cfg, joiners), steps);
             c in w.clients && LogReply(c, recs) in w.net && r in recs
    ensures var w := Next(cfg, After(cfg, Start(cfg, joiners), steps), ToClient(c, LogReply(c, recs)));
            c in w.clients ==> w.clients[c].joined && Epoch(w.clients[c]) > r.base
  {
    RunAgreed(cfg, joiners, steps);
    ReplyCatchesUp(cfg, After(cfg, Start(cfg, joiners), steps), c, recs, r);
  }

  lemma ReplyCatchesUp(cfg: Config, w: World, c: Actor, recs: seq<Record>, r: Record)
    requires Agreed(w) && c in w.clients && LogReply(c, recs) in w.net && r in recs
    ensures var after := Put(w, c, OnLogReply(cfg, c, w.clients[c], recs));
            c in after.clients ==> after.clients[c].joined && Epoch(after.clients[c]) > r.base
  {
    assert Past(w.clients, c, recs[0].base);
    SortedAlready(recs);
    ReplayFollows(cfg, All(w), |w.reflector.log|, c, w.clients[c], recs);
    var i :| 0 <= i < |recs| && recs[i] == r;
    assert recs[i].base == recs[0].base + i;
  }
}
