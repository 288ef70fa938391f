/** The data plane of a replica: with make-before-break on, a packet is sent only under an epoch
    its receiver has reached, and is lost only to a receiver more than the overlap past it. */
module DeliveryDataPlane {

  import opened TreeMath
  import opened Delivery
  import opened DeliveryAgreement

  // ---------------------------------------------------------------- one member's view

  ghost predicate InWindow(cfg: Config, ch: Channel, e: nat) {
    ch.joinEpoch <= e <= Epoch(ch) && !Stale(cfg, Epoch(ch), e)
  }

  ghost predicate CachedOk(cfg: Config, self: Actor, ch: Channel, e: nat) {
    && (e in ch.sas <==> InWindow(cfg, ch, e))
    && (e in ch.inSpis <==> InWindow(cfg, ch, e))
    && (InWindow(cfg, ch, e) ==>
          && self in MembersAt(ch.hist[..e])
          && ch.sas[e] == SaAt(cfg, ch.hist[..e], self) && ch.inSpis[e] == SpisAt(cfg, ch.hist[..e]))
  }

  /** Exactly the epochs since joining that are inside the overlap have their SAs cached, each as
      derived from the history at that epoch. */
  ghost predicate CacheOk(cfg: Config, self: Actor, ch: Channel) {
    forall e: nat :: CachedOk(cfg, self, ch, e)
  }

  ghost predicate Covered(self: Actor, ch: Channel) {
    self !in ch.peerEpoch && forall a | a in MembersAt(ch.hist) && a != self :: a in ch.peerEpoch
  }

  ghost predicate Sane(cfg: Config, self: Actor, ch: Channel) {
    if ch.joined then CacheOk(cfg, self, ch) && Covered(self, ch) else ch == Blank
  }

  ghost predicate Reached(clients: map<Actor, Channel>, a: Actor, e: nat) {
    a in clients && clients[a].joined ==> e <= Epoch(clients[a])
  }

  /** A known peer epoch is a floor under the peer's own, unless it dates from before joining, when
      no SA for it can be held. */
  ghost predicate PeersOk(clients: map<Actor, Channel>, n: nat, ch: Channel) {
    forall a | a in ch.peerEpoch ::
      ch.peerEpoch[a] <= n && (ch.peerEpoch[a] < ch.joinEpoch || Reached(clients, a, ch.peerEpoch[a]))
  }

  lemma CachedAt(cfg: Config, self: Actor, ch: Channel, e: nat)
    requires ch.joined && (e in ch.inSpis <==> e in ch.sas)
    ensures var c := CacheSa(cfg, self, ch);
            && (e in c.sas <==> (e == Epoch(ch) || e in ch.sas) && !Stale(cfg, Epoch(ch), e))
            && (e in c.inSpis <==> e in c.sas)
            && (e in c.sas ==> c.sas[e] == (if e == Epoch(ch) then SaAt(cfg, ch.hist, self) else ch.sas[e]))
            && (e in c.sas ==> c.inSpis[e] == (if e == Epoch(ch) then SpisAt(cfg, ch.hist) else ch.inSpis[e]))
  {
  }

  lemma CachedMoves(cfg: Config, self: Actor, ch: Channel, h: History, e: nat)
    requires ch.joined && CachedOk(cfg, self, ch, e) && ch.hist <= h && |h| == |ch.hist| + 1
    requires ch.joinEpoch <= |ch.hist|
    requires self in MembersAt(h)
    ensures CachedOk(cfg, self, CacheSa(cfg, self, ch.(hist := h)), e)
  {
    var moved := ch.(hist := h);
    CachedAt(cfg, self, moved, e);
    var c := CacheSa(cfg, self, moved);
    assert h[..|h|] == h;
    assert InWindow(cfg, c, e) ==> e == |h| || InWindow(cfg, ch, e);
    if e <= |ch.hist| { assert h[..e] == ch.hist[..e]; }
  }

  lemma CacheMoves(cfg: Config, self: Actor, ch: Channel, h: History)
    requires ch.joined && CacheOk(cfg, self, ch) && ch.hist <= h && |h| == |ch.hist| + 1 && ch.joinEpoch <= |ch.hist|
    requires self in MembersAt(h)
    ensures CacheOk(cfg, self, CacheSa(cfg, self, ch.(hist := h)))
  {
    forall e: nat ensures CachedOk(cfg, self, CacheSa(cfg, self, ch.(hist := h)), e) {
      CachedMoves(cfg, self, ch, h, e);
    }
  }

  /** What changes only the peers and the confirmations leaves the cache alone. */
  lemma CacheSame(cfg: Config, self: Actor, ch: Channel, c: Channel)
    requires CacheOk(cfg, self, ch)
    requires c.hist == ch.hist && c.sas == ch.sas && c.inSpis == ch.inSpis && c.joinEpoch == ch.joinEpoch
    ensures CacheOk(cfg, self, c)
  {
    forall e: nat ensures CachedOk(cfg, self, c, e) { assert CachedOk(cfg, self, ch, e); }
  }

  // ---------------------------------------------------------------- seeding and pruning

  ghost predicate SeedView(self: Actor, ch: Channel, c: Channel) {
    && c.hist != [] && self !in c.peerEpoch
    && (forall a | a in MembersAt(c.hist) && a != self :: a in c.peerEpoch)
    && (forall a | a in c.peerEpoch ::
          if a in ch.peerEpoch then c.peerEpoch[a] == ch.peerEpoch[a]
          else c.peerEpoch[a] == Epoch(c) && a in c.hist[|c.hist| - 1].adds)
  }

  lemma AdvanceSeeds(cfg: Config, self: Actor, ch: Channel, h: History)
    requires ch.joined && Covered(self, ch) && h != [] && h[..|h| - 1] == ch.hist
    ensures var c := Advance(cfg, self, ch, h);
            c.hist == h && c.joined && c.joinEpoch == ch.joinEpoch && SeedView(self, ch, c)
  {
    var c := Advance(cfg, self, ch, h);
    var last := h[|h| - 1];
    assert h == ch.hist + [last];
    forall a | a in MembersAt(h) && a != self ensures a in c.peerEpoch { MembersAfter(ch.hist, last, a); }
    forall a | a in c.peerEpoch && a !in ch.peerEpoch ensures a in last.adds { MembersAfter(ch.hist, last, a); }
  }

  lemma IssuePeersAre(cfg: Config, self: Actor, ch: Channel, change: Change)
    requires ch.joined
    ensures Issue(cfg, self, ch, change).ch.peerEpoch ==
            Seeded(map a | a in ch.peerEpoch && a in MembersAt(ch.hist + [change]) :: ch.peerEpoch[a],
                   (set a | a in change.adds) - {self}, |ch.hist| + 1)
    ensures Issue(cfg, self, ch, change).ch.sendSeq == ch.sendSeq
  {
    var cached := CacheSa(cfg, self, ch.(hist := ch.hist + [change]));
    assert cached.peerEpoch == ch.peerEpoch && cached.hist == ch.hist + [change] && cached.sendSeq == ch.sendSeq;
  }

  lemma IssueSa(cfg: Config, ch: Channel, change: Change)
    requires ch.joined
    ensures var c, h := Issue(cfg, FOUNDER, ch, change).ch, ch.hist + [change];
            |h| in c.sas && c.sas[|h|] == SaAt(cfg, h, FOUNDER)
  {
    var moved := ch.(hist := ch.hist + [change]);
    assert !Stale(cfg, Epoch(moved), Epoch(moved));
    var cached := CacheSa(cfg, FOUNDER, moved);
    assert Epoch(moved) in cached.sas && cached.sas[Epoch(moved)] == SaAt(cfg, moved.hist, FOUNDER);
    assert Issue(cfg, FOUNDER, ch, change).ch.sas == cached.sas;
  }

  lemma IssueSeeds(cfg: Config, self: Actor, ch: Channel, change: Change)
    requires ch.joined && Covered(self, ch)
    ensures var c := Issue(cfg, self, ch, change).ch;
            c.hist == ch.hist + [change] && c.joined && c.joinEpoch == ch.joinEpoch && SeedView(self, ch, c)
  {
    var c := Issue(cfg, self, ch, change).ch;
    IssuePeersAre(cfg, self, ch, change);
    SeedsAre(self, ch, change, c.peerEpoch);
    assert c.hist[|c.hist| - 1] == change;
  }

  lemma SeedsAre(self: Actor, ch: Channel, change: Change, peers: map<Actor, nat>)
    requires Covered(self, ch)
    requires peers == Seeded(map a | a in ch.peerEpoch && a in MembersAt(ch.hist + [change]) :: ch.peerEpoch[a],
                             (set a | a in change.adds) - {self}, |ch.hist| + 1)
    ensures self !in peers && forall a | a in MembersAt(ch.hist + [change]) && a != self :: a in peers
    ensures forall a | a in peers ::
              if a in ch.peerEpoch then peers[a] == ch.peerEpoch[a] else peers[a] == |ch.hist| + 1 && a in change.adds
  {
    forall a ensures a in change.adds ==> a in MembersAt(ch.hist + [change]) { MembersAfter(ch.hist, change, a); }
    forall a | a in MembersAt(ch.hist + [change]) && a != self ensures a in peers { MembersAfter(ch.hist, change, a); }
  }

  lemma RekeySeeds(cfg: Config, self: Actor, ch: Channel, nonce: nat)
    requires CanCommit(self, ch) && Covered(self, ch)
    ensures var c := Rekey(cfg, self, ch, nonce).ch;
            c.hist == ch.hist + [Change({}, [], nonce)] && c.joined && c.joinEpoch == ch.joinEpoch &&
              SeedView(self, ch, c)
  {
    var c := Rekey(cfg, self, ch, nonce).ch;
    forall a | a in MembersAt(c.hist) && a != self ensures a in c.peerEpoch {
      MembersAfter(ch.hist, Change({}, [], nonce), a);
    }
  }

  lemma AdvanceSane(cfg: Config, self: Actor, ch: Channel, h: History)
    requires ch.joined && Sane(cfg, self, ch) && h != [] && h[..|h| - 1] == ch.hist && ch.joinEpoch <= |ch.hist|
    requires self in MembersAt(h)
    ensures Sane(cfg, self, Advance(cfg, self, ch, h))
  {
    CacheMoves(cfg, self, ch, h);
    AdvanceSeeds(cfg, self, ch, h);
    CacheSame(cfg, self, CacheSa(cfg, self, ch.(hist := h)), Advance(cfg, self, ch, h));
  }

  lemma IssueSane(cfg: Config, self: Actor, ch: Channel, change: Change)
    requires ch.joined && Sane(cfg, self, ch) && ch.joinEpoch <= |ch.hist| && self in MembersAt(ch.hist + [change])
    ensures Sane(cfg, self, Issue(cfg, self, ch, change).ch)
  {
    CacheMoves(cfg, self, ch, ch.hist + [change]);
    IssueSeeds(cfg, self, ch, change);
    CacheSame(cfg, self, CacheSa(cfg, self, ch.(hist := ch.hist + [change])), Issue(cfg, self, ch, change).ch);
  }

  lemma RekeySane(cfg: Config, self: Actor, ch: Channel, nonce: nat)
    requires CanCommit(self, ch) && Sane(cfg, self, ch) && ch.joinEpoch <= |ch.hist| && self in MembersAt(ch.hist)
    ensures Sane(cfg, self, Rekey(cfg, self, ch, nonce).ch)
  {
    var h := ch.hist + [Change({}, [], nonce)];
    MembersAfter(ch.hist, Change({}, [], nonce), self);
    CacheMoves(cfg, self, ch, h);
    RekeySeeds(cfg, self, ch, nonce);
    CacheSame(cfg, self, CacheSa(cfg, self, ch.(hist := h)), Rekey(cfg, self, ch, nonce).ch);
  }

  // ---------------------------------------------------------------- the whole replica

  /** Member b is removed by a commit from lo up to hi. */
  ghost predicate RemovedIn(all: History, b: Actor, lo: nat, hi: nat) {
    exists i: nat :: lo <= i <= hi && i < |all| && b in all[i].removes
  }

  /** Member b will not take a to have reached epoch k + 1 just because commit k adds it: b is past that
      commit, will not get there, or is right before it and knows a already. */
  ghost predicate Heeds(all: History, b: Actor, ch: Channel, a: Actor, k: nat) {
    Epoch(ch) > k || RemovedIn(all, b, Epoch(ch), k) || (Epoch(ch) == k && a in ch.peerEpoch)
  }

  /** Whomever a commit adds has reached it, if joined, or is heeded by b. */
  ghost predicate Informed(clients: map<Actor, Channel>, all: History, b: Actor, ch: Channel) {
    forall k: nat, a: Actor | k < |all| && a in all[k].adds && a != b ::
      Reached(clients, a, k + 1) || Heeds(all, b, ch, a, k)
  }

  ghost predicate AllInformed(clients: map<Actor, Channel>, all: History) {
    forall b | b in clients && clients[b].joined :: Informed(clients, all, b, clients[b])
  }

  /** A prospective member named by a commit is named by the last one only: the committer waits
      for it. */
  ghost predicate Waiting(clients: map<Actor, Channel>, all: History, pending: map<Actor, History>) {
    forall p: Actor, k: nat | p in clients && !clients[p].joined && k < |all| && p in all[k].adds ::
      k == |all| - 1 && p in pending
  }

  ghost predicate DataOk(cfg: Config, clients: map<Actor, Channel>, all: History, env: Envelope) {
    env.Data? ==> env.base <= |all| && Reached(clients, env.dst, env.base) && env.spi in SpisAt(cfg, all[..env.base])
  }

  ghost predicate AllSane(cfg: Config, clients: map<Actor, Channel>) {
    forall a | a in clients :: Sane(cfg, a, clients[a])
  }

  ghost predicate AllPeers(clients: map<Actor, Channel>, n: nat) {
    forall a | a in clients && clients[a].joined :: PeersOk(clients, n, clients[a])
  }

  ghost predicate AllData(cfg: Config, clients: map<Actor, Channel>, all: History, net: set<Envelope>) {
    forall env | env in net :: DataOk(cfg, clients, all, env)
  }

  ghost predicate PlaneOk(cfg: Config, w: World) {
    && Agreed(w)
    && AllSane(cfg, w.clients)
    && AllPeers(w.clients, |All(w)|)
    && AllInformed(w.clients, All(w))
    && Waiting(w.clients, All(w), w.clients[FOUNDER].pendingWelcome)
    && AllData(cfg, w.clients, All(w), w.net)
  }

  /** Members go onward and a joiner starts at n. */
  ghost predicate Moves(before: map<Actor, Channel>, after: map<Actor, Channel>, n: nat) {
    forall a | a in after ::
      && a in before && Onward(before[a], after[a])
      && (after[a].joined && !before[a].joined ==> n <= Epoch(after[a]))
  }

  lemma ReachedKept(before: map<Actor, Channel>, after: map<Actor, Channel>, n: nat, a: Actor, e: nat)
    requires Moves(before, after, n) && e <= n && Reached(before, a, e)
    ensures Reached(after, a, e)
  {
  }

  lemma PeersKept(before: map<Actor, Channel>, after: map<Actor, Channel>, n: nat, ch: Channel)
    requires Moves(before, after, n) && PeersOk(before, n, ch)
    ensures PeersOk(after, n, ch)
  {
    forall a | a in ch.peerEpoch
      ensures ch.peerEpoch[a] < ch.joinEpoch || Reached(after, a, ch.peerEpoch[a])
    {
      if ch.peerEpoch[a] >= ch.joinEpoch { ReachedKept(before, after, n, a, ch.peerEpoch[a]); }
    }
  }

  lemma InformedKept(before: map<Actor, Channel>, after: map<Actor, Channel>, all: History, b: Actor, ch: Channel)
    requires Moves(before, after, |all|) && Informed(before, all, b, ch)
    ensures Informed(after, all, b, ch)
  {
    forall k: nat, a: Actor | k < |all| && a in all[k].adds && a != b
      ensures Reached(after, a, k + 1) || Heeds(all, b, ch, a, k)
    {
      if Reached(before, a, k + 1) { ReachedKept(before, after, |all|, a, k + 1); }
    }
  }

  lemma InformedWith(clients: map<Actor, Channel>, c: Actor, ch: Channel, all: History)
    requires AllInformed(clients, all) && Moves(clients, clients[c := ch], |all|)
    requires ch.joined ==> Informed(clients, all, c, ch)
    ensures AllInformed(clients[c := ch], all)
  {
    var after := clients[c := ch];
    forall b | b in after && after[b].joined ensures Informed(after, all, b, after[b]) {
      InformedKept(clients, after, all, b, after[b]);
    }
  }

  /** What leaves the history alone and forgets no peer leaves a member informed. */
  lemma InformedSame(clients: map<Actor, Channel>, all: History, b: Actor, ch: Channel, c: Channel)
    requires Informed(clients, all, b, ch) && c.hist == ch.hist && ch.peerEpoch.Keys <= c.peerEpoch.Keys
    ensures Informed(clients, all, b, c)
  {
    forall k: nat, a: Actor | k < |all| && a in all[k].adds && a != b
      ensures Reached(clients, a, k + 1) || Heeds(all, b, c, a, k)
    {
      if Epoch(ch) == k && a in ch.peerEpoch { assert a in c.peerEpoch.Keys; }
    }
  }

  lemma DataKept(cfg: Config, before: map<Actor, Channel>, after: map<Actor, Channel>, all: History, env: Envelope)
    requires Moves(before, after, |all|) && DataOk(cfg, before, all, env)
    ensures DataOk(cfg, after, all, env)
  {
    if env.Data? { ReachedKept(before, after, |all|, env.dst, env.base); }
  }

  lemma PlaneMove(cfg: Config, w: World, c: Actor, e: Effect)
    requires PlaneOk(cfg, w) && c in w.clients && Agreed(With(w, c, e)) && All(With(w, c, e)) == All(w)
    requires Onward(w.clients[c], e.ch) && (e.ch.joined && !w.clients[c].joined ==> Epoch(e.ch) == |All(w)|)
    requires Sane(cfg, c, e.ch)
    requires e.ch.joined ==> PeersOk(w.clients, |All(w)|, e.ch) && Informed(w.clients, All(w), c, e.ch)
    requires AllData(cfg, w.clients, All(w), e.out)
    requires c == FOUNDER ==>
      forall p | p in w.clients && !w.clients[p].joined && p in w.clients[c].pendingWelcome :: p in e.ch.pendingWelcome
    ensures PlaneOk(cfg, With(w, c, e))
  {
    MoveKeeps(cfg, w.clients, c, e.ch, All(w), w.net, e.out);
    assert Waiting(With(w, c, e).clients, All(w), With(w, c, e).clients[FOUNDER].pendingWelcome);
  }

  /** One client's move keeps every member's peers, what each has heard, and every packet in flight. */
  lemma MoveKeeps(cfg: Config, clients: map<Actor, Channel>, c: Actor, ch: Channel, all: History, net: set<Envelope>,
                  out: set<Envelope>)
    requires c in clients && Onward(clients[c], ch) && (ch.joined && !clients[c].joined ==> Epoch(ch) == |all|)
    requires AllSane(cfg, clients) && Sane(cfg, c, ch) && AllPeers(clients, |all|) && AllInformed(clients, all)
    requires ch.joined ==> PeersOk(clients, |all|, ch) && Informed(clients, all, c, ch)
    requires AllData(cfg, clients, all, net) && AllData(cfg, clients, all, out)
    ensures AllSane(cfg, clients[c := ch]) && AllPeers(clients[c := ch], |all|)
    ensures AllInformed(clients[c := ch], all) && AllData(cfg, clients[c := ch], all, net + out)
  {
    assert Moves(clients, clients[c := ch], |all|);
    PeersWith(clients, c, ch, |all|);
    InformedWith(clients, c, ch, all);
    DataWith(cfg, clients, clients[c := ch], all, net, out);
    SaneWith(cfg, clients, c, ch);
  }

  lemma SaneWith(cfg: Config, clients: map<Actor, Channel>, c: Actor, ch: Channel)
    requires AllSane(cfg, clients) && Sane(cfg, c, ch)
    ensures AllSane(cfg, clients[c := ch])
  {
  }

  lemma PeersWith(clients: map<Actor, Channel>, c: Actor, ch: Channel, n: nat)
    requires AllPeers(clients, n) && Moves(clients, clients[c := ch], n) && (ch.joined ==> PeersOk(clients, n, ch))
    ensures AllPeers(clients[c := ch], n)
  {
    var after := clients[c := ch];
    forall a | a in after && after[a].joined ensures PeersOk(after, n, after[a]) {
      PeersKept(clients, after, n, after[a]);
    }
  }

  lemma DataWith(cfg: Config, before: map<Actor, Channel>, after: map<Actor, Channel>, all: History, net: set<Envelope>,
                 out: set<Envelope>)
    requires Moves(before, after, |all|) && AllData(cfg, before, all, net) && AllData(cfg, before, all, out)
    ensures AllData(cfg, after, all, net + out)
  {
    forall env | env in net + out ensures DataOk(cfg, after, all, env) {
      assert DataOk(cfg, before, all, env);
      DataKept(cfg, before, after, all, env);
    }
  }

  lemma PlaneLeave(cfg: Config, w: World, c: Actor)
    requires PlaneOk(cfg, w) && c != FOUNDER
    ensures PlaneOk(cfg, Put(w, c, None))
  {
    var after := Put(w, c, None);
    var all := All(w);
    LeaveAgreed(w, c);
    assert Moves(w.clients, after.clients, |all|);
    forall a | a in after.clients && after.clients[a].joined ensures PeersOk(after.clients, |all|, after.clients[a]) {
      PeersKept(w.clients, after.clients, |all|, after.clients[a]);
    }
    forall b | b in after.clients && after.clients[b].joined ensures Informed(after.clients, all, b, after.clients[b]) {
      InformedKept(w.clients, after.clients, all, b, after.clients[b]);
    }
    forall env | env in after.net ensures DataOk(cfg, after.clients, all, env) {
      DataKept(cfg, w.clients, after.clients, all, env);
    }
  }

  // ---------------------------------------------------------------- committing

  /** Nobody is added who is still joined, from an earlier membership it has not seen end. */
  ghost predicate NoneJoined(clients: map<Actor, Channel>, adds: seq<Actor>) {
    forall a | a in adds && a in clients :: !clients[a].joined
  }

  /** Whoever is added while still joined is heeded by every other member. */
  ghost predicate Harmless(clients: map<Actor, Channel>, all: History, change: Change) {
    forall a, b | a in change.adds && a in clients && clients[a].joined && b in clients && clients[b].joined &&
      b != a ::
      Heeds(all + [change], b, clients[b], a, |all|)
  }

  lemma NoneJoinedHarmless(clients: map<Actor, Channel>, all: History, change: Change)
    requires NoneJoined(clients, change.adds)
    ensures Harmless(clients, all, change)
  {
  }

  /** The committer does not take a still-joined a to have reached the commit that adds it. */
  lemma FounderHeeds(w: World, change: Change, a: Actor)
    requires Agreed(w) && Harmless(w.clients, All(w), change) && FOUNDER !in change.removes && FOUNDER != a
    requires a in change.adds && a in w.clients && w.clients[a].joined
    ensures a in w.clients[FOUNDER].peerEpoch
  {
    var more := All(w) + [change];
    assert Heeds(more, FOUNDER, w.clients[FOUNDER], a, |All(w)|);
    assert more[|All(w)|] == change;
  }

  lemma {:induction false} IssueInforms(w: World, change: Change, e: Effect, b: Actor)
    requires Agreed(w) && AllInformed(w.clients, All(w)) && IssueView(w.clients[FOUNDER], change, e)
    requires Harmless(w.clients, All(w), change) && b in w.clients && w.clients[b].joined && b != FOUNDER
    ensures Informed(With(w, FOUNDER, e).clients, e.ch.hist, b, w.clients[b])
  {
    var all, more, before, after, ch := All(w), e.ch.hist, w.clients, With(w, FOUNDER, e).clients, w.clients[b];
    var n := |all|;
    assert Informed(before, all, b, ch);
    forall k: nat, a: Actor | k < |more| && a in more[k].adds && a != b
      ensures Reached(after, a, k + 1) || Heeds(more, b, ch, a, k)
    {
      if k < n {
        assert more[k] == all[k];
        InformedMore(w, change, e, b, k, a);
      } else {
        assert more[k] == change && more == all + [change];
      }
    }
  }

  lemma {:induction false} InformedMore(w: World, change: Change, e: Effect, b: Actor, k: nat, a: Actor)
    requires Agreed(w) && IssueView(w.clients[FOUNDER], change, e) && b in w.clients
    requires k < |All(w)| && (Reached(w.clients, a, k + 1) || Heeds(All(w), b, w.clients[b], a, k))
    ensures Reached(With(w, FOUNDER, e).clients, a, k + 1) || Heeds(e.ch.hist, b, w.clients[b], a, k)
  {
    var all, more, ch := All(w), e.ch.hist, w.clients[b];
    if RemovedIn(all, b, Epoch(ch), k) {
      var i: nat :| Epoch(ch) <= i <= k && i < |all| && b in all[i].removes;
      assert more[i] == all[i];
      assert RemovedIn(more, b, Epoch(ch), k);
    }
  }

  lemma {:induction false} IssueAllInformed(w: World, change: Change, e: Effect)
    requires Agreed(w) && AllInformed(w.clients, All(w)) && IssueView(w.clients[FOUNDER], change, e)
    requires Harmless(w.clients, All(w), change)
    ensures AllInformed(With(w, FOUNDER, e).clients, e.ch.hist)
  {
    var after := With(w, FOUNDER, e).clients;
    forall b | b in after && after[b].joined ensures Informed(after, e.ch.hist, b, after[b]) {
      if b != FOUNDER { IssueInforms(w, change, e, b); }
    }
  }

  lemma IssuePeers(w: World, change: Change, e: Effect)
    requires Agreed(w) && PeersOk(w.clients, |All(w)|, w.clients[FOUNDER]) && w.clients[FOUNDER].joined
    requires IssueView(w.clients[FOUNDER], change, e) && SeedView(FOUNDER, w.clients[FOUNDER], e.ch)
    requires Harmless(w.clients, All(w), change) && FOUNDER !in change.adds && FOUNDER !in change.removes
    ensures PeersOk(With(w, FOUNDER, e).clients, |All(w)| + 1, e.ch)
  {
    var before, after, ch := w.clients, With(w, FOUNDER, e).clients, w.clients[FOUNDER];
    forall a | a in e.ch.peerEpoch
      ensures e.ch.peerEpoch[a] <= |All(w)| + 1
      ensures e.ch.peerEpoch[a] < e.ch.joinEpoch || Reached(after, a, e.ch.peerEpoch[a])
    {
      if a in ch.peerEpoch {
        assert ch.peerEpoch[a] < ch.joinEpoch || Reached(before, a, ch.peerEpoch[a]);
      } else if a in before && before[a].joined {
        FounderHeeds(w, change, a);
      }
    }
  }

  lemma IssueWaiting(w: World, change: Change, e: Effect)
    requires Agreed(w) && Waiting(w.clients, All(w), w.clients[FOUNDER].pendingWelcome)
    requires w.clients[FOUNDER].pendingWelcome == map[]
    requires IssueView(w.clients[FOUNDER], change, e)
    ensures Waiting(With(w, FOUNDER, e).clients, e.ch.hist, e.ch.pendingWelcome)
  {
    var all, more, after := All(w), e.ch.hist, With(w, FOUNDER, e);
    assert forall k: nat | k < |all| :: more[k] == all[k];
    forall p: Actor, k: nat | p in after.clients && !after.clients[p].joined && k < |more| && p in more[k].adds
      ensures k == |more| - 1 && p in e.ch.pendingWelcome
    {
    }
  }

  lemma IssueData(cfg: Config, w: World, change: Change, e: Effect, env: Envelope)
    requires Agreed(w) && IssueView(w.clients[FOUNDER], change, e) && DataOk(cfg, w.clients, All(w), env)
    ensures DataOk(cfg, With(w, FOUNDER, e).clients, e.ch.hist, env)
  {
    var all, more, after := All(w), e.ch.hist, With(w, FOUNDER, e);
    if env.Data? {
      assert Moves(w.clients, after.clients, |all|);
      ReachedKept(w.clients, after.clients, |all|, env.dst, env.base);
      assert more[..env.base] == all[..env.base];
    }
  }

  lemma IssueOthers(w: World, change: Change, e: Effect, ch: Channel)
    requires Agreed(w) && IssueView(w.clients[FOUNDER], change, e) && PeersOk(w.clients, |All(w)|, ch)
    ensures PeersOk(With(w, FOUNDER, e).clients, |e.ch.hist|, ch)
  {
    assert Moves(w.clients, With(w, FOUNDER, e).clients, |All(w)|);
    PeersKept(w.clients, With(w, FOUNDER, e).clients, |All(w)|, ch);
  }

  lemma IssuePlane(cfg: Config, w: World, change: Change, e: Effect)
    requires PlaneOk(cfg, w) && CanCommit(FOUNDER, w.clients[FOUNDER]) && FOUNDER !in change.removes
    requires IssueView(w.clients[FOUNDER], change, e) && SeedView(FOUNDER, w.clients[FOUNDER], e.ch)
    requires Sane(cfg, FOUNDER, e.ch)
    requires FOUNDER !in change.adds && Harmless(w.clients, All(w), change)
    ensures PlaneOk(cfg, With(w, FOUNDER, e))
  {
    IssueAgreed(w, change, e);
    IssueAllInformed(w, change, e);
    IssueWaiting(w, change, e);
    IssueAllPeers(w, change, e);
    IssueAllData(cfg, w, change, e);
    SaneWith(cfg, w.clients, FOUNDER, e.ch);
  }

  lemma IssueAllPeers(w: World, change: Change, e: Effect)
    requires Agreed(w) && IssueView(w.clients[FOUNDER], change, e) && SeedView(FOUNDER, w.clients[FOUNDER], e.ch)
    requires Harmless(w.clients, All(w), change) && FOUNDER !in change.adds && FOUNDER !in change.removes
    requires AllPeers(w.clients, |All(w)|)
    ensures AllPeers(With(w, FOUNDER, e).clients, |e.ch.hist|)
  {
    var after := With(w, FOUNDER, e);
    forall a | a in after.clients && after.clients[a].joined
      ensures PeersOk(after.clients, |e.ch.hist|, after.clients[a])
    {
      if a == FOUNDER { IssuePeers(w, change, e); } else { IssueOthers(w, change, e, w.clients[a]); }
    }
  }

  lemma IssueAllData(cfg: Config, w: World, change: Change, e: Effect)
    requires Agreed(w) && IssueView(w.clients[FOUNDER], change, e)
    requires AllData(cfg, w.clients, All(w), w.net)
    ensures AllData(cfg, With(w, FOUNDER, e).clients, e.ch.hist, With(w, FOUNDER, e).net)
  {
    forall env | env in With(w, FOUNDER, e).net ensures DataOk(cfg, With(w, FOUNDER, e).clients, e.ch.hist, env) {
      if env.Data? { IssueData(cfg, w, change, e, env); }
    }
  }

  /** Nobody to be added is still joined. */
  ghost predicate Clear(w: World, desired: seq<Actor>, resolvable: set<Actor>) {
    NoneJoined(w.clients, NewMembers(desired, MembersAt(All(w)), resolvable))
  }

  /** Whoever is to be added while still joined is heeded by every other member that stays. */
  ghost predicate Careful(w: World, desired: seq<Actor>, resolvable: set<Actor>) {
    forall nonce | Difference(FOUNDER, All(w), desired, resolvable, nonce).Some? ::
      Harmless(w.clients, All(w), Difference(FOUNDER, All(w), desired, resolvable, nonce).value)
  }

  lemma ClearIsCareful(w: World, desired: seq<Actor>, resolvable: set<Actor>)
    requires Clear(w, desired, resolvable)
    ensures Careful(w, desired, resolvable)
  {
    forall nonce | Difference(FOUNDER, All(w), desired, resolvable, nonce).Some?
      ensures Harmless(w.clients, All(w), Difference(FOUNDER, All(w), desired, resolvable, nonce).value)
    {
      NoneJoinedHarmless(w.clients, All(w), Difference(FOUNDER, All(w), desired, resolvable, nonce).value);
    }
  }

  lemma ReconcilePlane(cfg: Config, w: World, c: Actor, desired: seq<Actor>, resolvable: set<Actor>, nonce: nat)
    requires PlaneOk(cfg, w) && c in w.clients && Careful(w, desired, resolvable)
    ensures PlaneOk(cfg, With(w, c, Reconcile(cfg, c, w.clients[c], desired, resolvable, nonce)))
  {
    var ch := w.clients[c];
    var d := Difference(c, ch.hist, desired, resolvable, nonce);
    if CanCommit(c, ch) && d.Some? {
      OneCommitter(ch.hist, c);
      NewMembersAre(desired, MembersAt(ch.hist), resolvable, FOUNDER);
      ChangePlane(cfg, w, d.value);
    } else {
      assert With(w, c, Effect(ch, {})) == w;
    }
  }

  lemma ChangePlane(cfg: Config, w: World, change: Change)
    requires PlaneOk(cfg, w) && CanCommit(FOUNDER, w.clients[FOUNDER])
    requires FOUNDER !in change.removes && FOUNDER !in change.adds && Harmless(w.clients, All(w), change)
    ensures PlaneOk(cfg, With(w, FOUNDER, Issue(cfg, FOUNDER, w.clients[FOUNDER], change)))
  {
    var ch := w.clients[FOUNDER];
    Issued(cfg, FOUNDER, ch, change);
    IssueSeeds(cfg, FOUNDER, ch, change);
    MembersAfter(ch.hist, change, FOUNDER);
    IssueSane(cfg, FOUNDER, ch, change);
    IssuePlane(cfg, w, change, Issue(cfg, FOUNDER, ch, change));
  }

  lemma RekeyPlane(cfg: Config, w: World, c: Actor, nonce: nat)
    requires PlaneOk(cfg, w) && c in w.clients
    ensures PlaneOk(cfg, With(w, c, Rekey(cfg, c, w.clients[c], nonce)))
  {
    var ch := w.clients[c];
    if CanCommit(c, ch) {
      OneCommitter(ch.hist, c);
      Rekeyed(cfg, c, ch, nonce);
      RekeySeeds(cfg, c, ch, nonce);
      RekeySane(cfg, c, ch, nonce);
      IssuePlane(cfg, w, Change({}, [], nonce), Rekey(cfg, c, ch, nonce));
    } else {
      assert With(w, c, Effect(ch, {})) == w;
    }
  }

  // ---------------------------------------------------------------- members

  lemma SeedsReached(clients: map<Actor, Channel>, all: History, self: Actor, ch: Channel, c: Channel)
    requires PeersOk(clients, |all|, ch) && Informed(clients, all, self, ch) && SeedView(self, ch, c)
    requires c.joinEpoch == ch.joinEpoch && c.hist <= all && Epoch(c) == Epoch(ch) + 1
    requires self !in all[Epoch(ch)].removes
    ensures PeersOk(clients, |all|, c)
  {
    forall a | a in c.peerEpoch
      ensures c.peerEpoch[a] <= |all| && (c.peerEpoch[a] < c.joinEpoch || Reached(clients, a, c.peerEpoch[a]))
    {
      if a !in ch.peerEpoch {
        var k := Epoch(ch);
        assert a in all[k].adds && !RemovedIn(all, self, k, k);
        assert Reached(clients, a, k + 1);
      }
    }
  }

  lemma InformedNext(clients: map<Actor, Channel>, all: History, self: Actor, ch: Channel, c: Channel)
    requires Informed(clients, all, self, ch) && Epoch(c) == Epoch(ch) + 1 <= |all| && self !in all[Epoch(ch)].removes
    ensures Informed(clients, all, self, c)
  {
    forall k: nat, a: Actor | k < |all| && a in all[k].adds && a != self
      ensures Reached(clients, a, k + 1) || Heeds(all, self, c, a, k)
    {
      if RemovedIn(all, self, Epoch(ch), k) {
        var i: nat :| Epoch(ch) <= i <= k && i < |all| && self in all[i].removes;
        assert Epoch(c) <= i;
      }
    }
  }

  /** What a member's step over the history keeps of its own state. */
  ghost predicate StillOk(cfg: Config, clients: map<Actor, Channel>, all: History, a: Actor, r: Option<Channel>) {
    r.Some? ==>
      && Sane(cfg, a, r.value)
      && (r.value.joined ==> PeersOk(clients, |all|, r.value) && Informed(clients, all, a, r.value))
  }

  lemma ApplyPlane(cfg: Config, clients: map<Actor, Channel>, all: History, a: Actor, ch: Channel, commit: History)
    requires MemberOk(all, a, ch) && ch.joined && commit <= all && commit != [] && commit[..|commit| - 1] == ch.hist
    requires Sane(cfg, a, ch) && PeersOk(clients, |all|, ch) && Informed(clients, all, a, ch)
    ensures StillOk(cfg, clients, all, a, Apply(cfg, a, ch, commit))
  {
    if a !in commit[|commit| - 1].removes {
      ApplyFollows(cfg, all, a, ch, commit);
      AdvanceSeeds(cfg, a, ch, commit);
      AdvanceSane(cfg, a, ch, commit);
      assert all[Epoch(ch)] == commit[|commit| - 1];
      SeedsReached(clients, all, a, ch, Advance(cfg, a, ch, commit));
      InformedNext(clients, all, a, ch, Advance(cfg, a, ch, commit));
      assert Apply(cfg, a, ch, commit) == Some(Advance(cfg, a, ch, commit));
    }
  }

  lemma PutPlane(cfg: Config, w: World, c: Actor, r: Option<Channel>)
    requires PlaneOk(cfg, w) && c in w.clients && Followed(All(w), c, w.clients[c], r)
    requires StillOk(cfg, w.clients, All(w), c, r)
    requires c == FOUNDER ==>
             r.Some? && CommitterOk(All(w), |w.reflector.log|, r.value) &&
               r.value.pendingWelcome == w.clients[c].pendingWelcome
    ensures PlaneOk(cfg, Put(w, c, r))
  {
    if r.None? {
      PlaneLeave(cfg, w, c);
    } else {
      PutAgreed(w, c, r);
      assert With(w, c, Effect(r.value, {})) == Put(w, c, r);
      PlaneMove(cfg, w, c, Effect(r.value, {}));
    }
  }

  lemma ConfirmSane(cfg: Config, self: Actor, ch: Channel, base: nat, commit: History)
    requires ch.joined && Sane(cfg, self, ch)
    ensures Sane(cfg, self, Confirm(ch, true, base, commit))
  {
    CacheSame(cfg, self, ch, Confirm(ch, true, base, commit));
  }

  lemma CommitPlane(cfg: Config, w: World, c: Actor, base: nat, commit: History)
    requires PlaneOk(cfg, w) && c in w.clients
    requires EnvelopeOk(w.clients, All(w), |w.reflector.log|, Commit(true, base, commit))
    ensures PlaneOk(cfg, Put(w, c, OnCommit(cfg, c, w.clients[c], true, base, commit)))
  {
    var ch := w.clients[c];
    var r := OnCommit(cfg, c, ch, true, base, commit);
    CommitFollows(cfg, All(w), c, ch, base, commit);
    CommitStillOk(cfg, w.clients, All(w), c, ch, base, commit);
    if c == FOUNDER { assert r == Some(Confirm(ch, true, base, commit)); }
    PutPlane(cfg, w, c, r);
  }

  lemma CommitStillOk(cfg: Config, clients: map<Actor, Channel>, all: History, a: Actor, ch: Channel, base: nat,
                      commit: History)
    requires MemberOk(all, a, ch) && base < |all| && commit == all[..base + 1]
    requires Sane(cfg, a, ch) && (ch.joined ==> PeersOk(clients, |all|, ch) && Informed(clients, all, a, ch))
    ensures StillOk(cfg, clients, all, a, OnCommit(cfg, a, ch, true, base, commit))
  {
    if ch.joined {
      var sure := Confirm(ch, true, base, commit);
      ConfirmSane(cfg, a, ch, base, commit);
      InformedSame(clients, all, a, ch, sure);
      if Epoch(sure) == base {
        assert commit[..|commit| - 1] == sure.hist;
        ApplyPlane(cfg, clients, all, a, sure, commit);
      }
    }
  }

  lemma {:induction false} ReplayPlane(cfg: Config, clients: map<Actor, Channel>, all: History, n: nat, a: Actor,
                                       ch: Channel, recs: seq<Record>)
    requires MemberOk(all, a, ch) && ch.joined && Contiguous(all, n, recs)
    requires Sane(cfg, a, ch) && PeersOk(clients, |all|, ch) && Informed(clients, all, a, ch)
    ensures StillOk(cfg, clients, all, a, Replay(cfg, a, ch, recs))
    decreases |recs|
  {
    if recs != [] {
      ContiguousTail(all, n, recs);
      if Epoch(ch) != recs[0].base {
        ReplayPlane(cfg, clients, all, n, a, ch, recs[1..]);
      } else {
        var commit := recs[0].commit;
        assert commit == all[..recs[0].base + 1] && commit[..|commit| - 1] == ch.hist;
        ApplyFollows(cfg, all, a, ch, commit);
        ApplyPlane(cfg, clients, all, a, ch, commit);
        var r := Apply(cfg, a, ch, commit);
        if r.Some? { ReplayPlane(cfg, clients, all, n, a, r.value, recs[1..]); }
      }
    }
  }

  lemma LogReplyPlane(cfg: Config, w: World, c: Actor, recs: seq<Record>)
    requires PlaneOk(cfg, w) && c in w.clients && EnvelopeOk(w.clients, All(w), |w.reflector.log|, LogReply(c, recs))
    ensures PlaneOk(cfg, Put(w, c, OnLogReply(cfg, c, w.clients[c], recs)))
  {
    var ch := w.clients[c];
    SortedAlready(recs);
    var r := OnLogReply(cfg, c, ch, recs);
    if ch.joined {
      ReplayFollows(cfg, All(w), |w.reflector.log|, c, ch, recs);
      ReplayPlane(cfg, w.clients, All(w), |w.reflector.log|, c, ch, recs);
    }
    if c == FOUNDER && recs != [] { FounderIgnores(cfg, w, recs); }
    PutPlane(cfg, w, c, r);
  }

  // ---------------------------------------------------------------- joining and heartbeats

  lemma JoinSane(cfg: Config, self: Actor, commit: History)
    requires commit != [] && self in commit[|commit| - 1].adds
    ensures Sane(cfg, self, OnWelcome(cfg, self, Blank, commit).ch)
  {
    var start := Blank.(joined := true, hist := commit, joinEpoch := |commit|);
    var cached := CacheSa(cfg, self, start);
    var c := OnWelcome(cfg, self, Blank, commit).ch;
    assert commit[..|commit|] == commit;
    assert commit == commit[..|commit| - 1] + [commit[|commit| - 1]];
    MembersAfter(commit[..|commit| - 1], commit[|commit| - 1], self);
    forall e: nat ensures CachedOk(cfg, self, cached, e) { CachedAt(cfg, self, start, e); }
    CacheSame(cfg, self, cached, c);
  }

  lemma JoinPeers(cfg: Config, clients: map<Actor, Channel>, n: nat, self: Actor, commit: History)
    requires commit != [] && self in commit[|commit| - 1].adds && |commit| <= n
    ensures PeersOk(clients, n, OnWelcome(cfg, self, Blank, commit).ch)
  {
    var c := CacheSa(cfg, self, Blank.(joined := true, hist := commit, joinEpoch := |commit|));
    assert c.peerEpoch == map[];
  }

  /** A Welcome is never stale: whoever joins, joins at the committer's epoch. */
  lemma WelcomeCurrent(cfg: Config, w: World, c: Actor, commit: History)
    requires PlaneOk(cfg, w) && c in w.clients && !w.clients[c].joined
    requires EnvelopeOk(w.clients, All(w), |w.reflector.log|, Welcome(true, c, commit))
    ensures commit == All(w)
  {
    assert c in All(w)[|commit| - 1].adds;
    assert |commit| - 1 == |All(w)| - 1;
  }

  lemma WelcomePlane(cfg: Config, w: World, c: Actor, commit: History)
    requires PlaneOk(cfg, w) && c in w.clients
    requires EnvelopeOk(w.clients, All(w), |w.reflector.log|, Welcome(true, c, commit))
    ensures PlaneOk(cfg, With(w, c, OnWelcome(cfg, c, w.clients[c], commit)))
  {
    var ch := w.clients[c];
    if ch.joined {
      assert With(w, c, Effect(ch, {})) == w;
    } else {
      assert Sane(cfg, c, ch);
      WelcomeCurrent(cfg, w, c, commit);
      WelcomeAgreed(cfg, w, c, commit);
      Joined(cfg, c, ch, commit);
      JoinSane(cfg, c, commit);
      JoinPeers(cfg, w.clients, |All(w)|, c, commit);
      JoinPlane(cfg, w, c, commit, OnWelcome(cfg, c, ch, commit));
    }
  }

  lemma JoinPlane(cfg: Config, w: World, c: Actor, commit: History, e: Effect)
    requires PlaneOk(cfg, w) && c in w.clients && !w.clients[c].joined && JoinView(w.clients[c], c, commit, e)
    requires commit == All(w) && Agreed(With(w, c, e)) && Sane(cfg, c, e.ch) && PeersOk(w.clients, |All(w)|, e.ch)
    ensures PlaneOk(cfg, With(w, c, e))
  {
    PlaneMove(cfg, w, c, e);
  }

  lemma BeatPlane(cfg: Config, w: World, c: Actor, src: Actor, base: nat)
    requires PlaneOk(cfg, w) && c in w.clients && src != c
    requires EnvelopeOk(w.clients, All(w), |w.reflector.log|, Heartbeat(src, base))
    ensures PlaneOk(cfg, With(w, c, OnHeartbeat(c, w.clients[c], src, base)))
  {
    var ch := w.clients[c];
    var e := OnHeartbeat(c, ch, src, base);
    BeatAgreed(w, c, src, base);
    if ch.joined {
      CacheSame(cfg, c, ch, e.ch);
      BeatPeers(w.clients, |All(w)|, c, ch, src, base);
      InformedSame(w.clients, All(w), c, ch, e.ch);
      PlaneMove(cfg, w, c, e);
    } else {
      assert With(w, c, e) == w;
    }
  }

  lemma BeatPeers(clients: map<Actor, Channel>, n: nat, self: Actor, ch: Channel, src: Actor, base: nat)
    requires ch.joined && PeersOk(clients, n, ch) && base <= n && Past(clients, src, base)
    ensures PeersOk(clients, n, OnHeartbeat(self, ch, src, base).ch)
  {
  }

  lemma PublishPlane(cfg: Config, w: World, out: set<Envelope>)
    requires PlaneOk(cfg, w) && Agreed(w.(net := w.net + out)) && forall env | env in out :: !env.Data?
    ensures PlaneOk(cfg, w.(net := w.net + out))
  {
  }

  // ---------------------------------------------------------------- sending and receiving

  /** A packet's epoch is one every known peer has reached: a peer epoch older than the sender's
      own join keeps the sender silent, as it holds no SA that old. */
  lemma SendReached(cfg: Config, w: World, c: Actor, dst: Actor, env: Envelope)
    requires PlaneOk(cfg, w) && cfg.mbb && c in w.clients && env in SendData(cfg, c, w.clients[c], dst).out
    ensures DataOk(cfg, w.clients, All(w), env)
  {
    var ch := w.clients[c];
    var e := SendEpoch(cfg, ch);
    var floor := {Epoch(ch)} + ch.peerEpoch.Values;
    assert Epoch(ch) in floor && dst in ch.peerEpoch;
    assert ch.peerEpoch[dst] in ch.peerEpoch.Values;
    assert ch.peerEpoch[dst] in floor;
    assert CachedOk(cfg, c, ch, e);
    OwnSpi(cfg, w, c, e);
  }

  lemma {:induction false} LeafHolds(r: Roster, a: Actor)
    requires Some(a) in r
    ensures Leaf(r, a) < |r| && r[Leaf(r, a)] == Some(a)
  {
    if r[0] != Some(a) {
      assert r == [r[0]] + r[1..];
      LeafHolds(r[1..], a);
    }
  }

  /** A member was one at every epoch since it joined, so its SPI is among that epoch's. */
  lemma OwnSpi(cfg: Config, w: World, c: Actor, e: nat)
    requires PlaneOk(cfg, w) && c in w.clients && w.clients[c].joined && e in w.clients[c].sas
    ensures e <= |All(w)|
    ensures w.clients[c].sas[e].ownSpi in SpisAt(cfg, All(w)[..e])
    ensures w.clients[c].sas[e].spi in SpisAt(cfg, All(w)[..e])
  {
    assert Sane(cfg, c, w.clients[c]) && MemberOk(All(w), c, w.clients[c]);
    assert CachedOk(cfg, c, w.clients[c], e);
    var h := w.clients[c].hist[..e];
    assert All(w)[..e] == h;
    InMembers(RosterAt(h), c);
    LeafHolds(RosterAt(h), c);
  }

  lemma SendPlane(cfg: Config, w: World, c: Actor, dst: Actor)
    requires PlaneOk(cfg, w) && cfg.mbb && c in w.clients
    ensures PlaneOk(cfg, With(w, c, SendData(cfg, c, w.clients[c], dst)))
  {
    var e := SendData(cfg, c, w.clients[c], dst);
    SendAgreed(cfg, w, c, dst);
    forall env | env in e.out ensures DataOk(cfg, w.clients, All(w), env) { SendReached(cfg, w, c, dst, env); }
    if w.clients[c].joined {
      CacheSame(cfg, c, w.clients[c], e.ch);
      InformedSame(w.clients, All(w), c, w.clients[c], e.ch);
    }
    PlaneMove(cfg, w, c, e);
  }

  lemma DataPlane(cfg: Config, w: World, c: Actor, base: nat, spi: nat, number: nat)
    requires PlaneOk(cfg, w) && c in w.clients
    ensures PlaneOk(cfg, With(w, c, Effect(OnData(w.clients[c], base, spi, number), {})))
  {
    var ch := w.clients[c];
    var after := OnData(ch, base, spi, number);
    DataAgreed(w, c, base, spi, number);
    if ch.joined {
      CacheSame(cfg, c, ch, after);
      InformedSame(w.clients, All(w), c, ch, after);
    }
    PlaneMove(cfg, w, c, Effect(after, {}));
  }

  lemma HeldInWindow(cfg: Config, w: World, c: Actor, env: Envelope)
    requires PlaneOk(cfg, w) && cfg.mbb && c in w.clients && w.clients[c].joined && env in w.net && env.Data?
    requires env.dst == c
    requires w.clients[c].joinEpoch <= env.base && Epoch(w.clients[c]) <= env.base + cfg.overlap
    ensures Held(w.clients[c], env.spi)
  {
    var ch := w.clients[c];
    assert DataOk(cfg, w.clients, All(w), env);
    assert Sane(cfg, c, ch) && MemberOk(All(w), c, ch);
    assert CachedOk(cfg, c, ch, env.base);
    assert All(w)[..env.base] == ch.hist[..env.base];
    assert env.base in ch.sas && env.spi in ch.inSpis[env.base];
  }

  /** A delivered packet is lost only to a receiver more than the overlap past its epoch. */
  lemma LostBeyond(cfg: Config, w: World, c: Actor, env: Envelope)
    requires PlaneOk(cfg, w) && cfg.mbb && c in w.clients && env in w.net && env.Data? && env.dst == c
    requires Judge(w.clients[c], env.base, env.spi, env.number) == Lost
    ensures Epoch(w.clients[c]) > env.base + cfg.overlap
  {
    if Epoch(w.clients[c]) <= env.base + cfg.overlap { HeldInWindow(cfg, w, c, env); }
  }

  // ---------------------------------------------------------------- every run

  lemma ReceivePlane(cfg: Config, w: World, c: Actor, env: Envelope)
    requires PlaneOk(cfg, w) && c in w.clients && env in w.net
    ensures PlaneOk(cfg, Receive(cfg, w, c, env))
  {
    assert EnvelopeOk(w.clients, All(w), |w.reflector.log|, env);
    match env
    case Commit(echo, base, commit) => if echo { CommitPlane(cfg, w, c, base, commit); }
    case Welcome(echo, joiner, commit) => if echo && joiner == c { WelcomePlane(cfg, w, c, commit); }
    case Heartbeat(src, base) => if src != c { BeatPlane(cfg, w, c, src, base); }
    case LogReply(dst, recs) => if dst == c { LogReplyPlane(cfg, w, c, recs); }
    case Data(_, dst, base, spi, number) =>
      if dst == c { DeliverPlane(cfg, w, c, env); }
    case _ =>
  }

  lemma DeliverPlane(cfg: Config, w: World, c: Actor, env: Envelope)
    requires PlaneOk(cfg, w) && c in w.clients && env.Data? && env.dst == c
    ensures PlaneOk(cfg, Receive(cfg, w, c, env))
  {
    DataPlane(cfg, w, c, env.base, env.spi, env.number);
    PlaneSame(cfg, With(w, c, Effect(OnData(w.clients[c], env.base, env.spi, env.number), {})),
      Receive(cfg, w, c, env));
  }

  lemma PlaneSame(cfg: Config, w: World, v: World)
    requires PlaneOk(cfg, w) && v.clients == w.clients && v.reflector == w.reflector && v.net == w.net
    ensures PlaneOk(cfg, v)
  {
  }

  lemma ReflectPlane(cfg: Config, w: World, env: Envelope)
    requires PlaneOk(cfg, w) && env in w.net
    ensures PlaneOk(cfg, Reflect(w, env))
  {
    ReflectAgreed(w, env);
    var after := Reflect(w, env);
    assert after.clients == w.clients;
    assert forall x | x in after.net && x.Data? :: x in w.net;
    forall x | x in after.net ensures DataOk(cfg, after.clients, All(w), x) {
      if x.Data? { assert DataOk(cfg, w.clients, All(w), x); }
    }
  }

  ghost predicate Allowed(w: World, s: Step) {
    s.ReconcileTimer? ==> Careful(w, s.desired, s.resolvable)
  }

  lemma NextPlane(cfg: Config, w: World, s: Step)
    requires PlaneOk(cfg, w) && cfg.mbb && Allowed(w, s)
    ensures PlaneOk(cfg, Next(cfg, w, s))
  {
    match s
    case ReconcileTimer(c, desired, resolvable, nonce) =>
      if c in w.clients { ReconcilePlane(cfg, w, c, desired, resolvable, nonce); }
    case RekeyTimer(c, nonce) => if c in w.clients { RekeyPlane(cfg, w, c, nonce); }
    case HeartbeatTimer(c) =>
      if c in w.clients { HeartbeatAgreed(w, c); PublishPlane(cfg, w, EmitHeartbeat(c, w.clients[c])); }
    case DataTimer(c, dst) => if c in w.clients { SendPlane(cfg, w, c, dst); }
    case ToClient(c, env) => if c in w.clients && env in w.net { ReceivePlane(cfg, w, c, env); }
    case ToReflector(env) => if env in w.net { ReflectPlane(cfg, w, env); }
  }

  /** Every reconcile of the run was careful when it happened. */
  ghost predicate CarefulRun(cfg: Config, start: World, steps: seq<Step>) {
    forall i | 0 <= i < |steps| :: Allowed(After(cfg, start, steps[..i]), steps[i])
  }

  ghost predicate LossesOk(cfg: Config, losses: seq<Loss>) {
    forall l | l in losses :: l.reached > l.sent + cfg.overlap
  }

  lemma StartPlane(cfg: Config, joiners: set<Actor>)
    ensures PlaneOk(cfg, Start(cfg, joiners))
  {
    RunAgreed(cfg, joiners, []);
    var start := Blank.(joined := true);
    OneCommitter([], FOUNDER);
    forall e: nat ensures CachedOk(cfg, FOUNDER, Found(cfg), e) { CachedAt(cfg, FOUNDER, start, e); }
    assert RosterAt([]) == [Some(FOUNDER)];
  }

  lemma {:induction false} RunPlane(cfg: Config, joiners: set<Actor>, steps: seq<Step>)
    requires cfg.mbb && CarefulRun(cfg, Start(cfg, joiners), steps)
    ensures var w := After(cfg, Start(cfg, joiners), steps); PlaneOk(cfg, w) && LossesOk(cfg, w.losses)
  {
    if steps == [] {
      StartPlane(cfg, joiners);
    } else {
      var init, s := steps[..|steps| - 1], steps[|steps| - 1];
      forall i | 0 <= i < |init| ensures Allowed(After(cfg, Start(cfg, joiners), init[..i]), init[i]) {
        assert init[..i] == steps[..i];
      }
      RunPlane(cfg, joiners, init);
      var w := After(cfg, Start(cfg, joiners), init);
      NextPlane(cfg, w, s);
      NextLosses(cfg, w, s);
    }
  }

  lemma NextLosses(cfg: Config, w: World, s: Step)
    requires PlaneOk(cfg, w) && cfg.mbb && LossesOk(cfg, w.losses)
    ensures LossesOk(cfg, Next(cfg, w, s).losses)
  {
    if s.ToClient? && s.c in w.clients && s.env in w.net && s.env.Data? && s.env.dst == s.c
       && Judge(w.clients[s.c], s.env.base, s.env.spi, s.env.number) == Lost {
      LostBeyond(cfg, w, s.c, s.env);
    } else {
      assert Next(cfg, w, s).losses == w.losses;
    }
  }

  /** Under any drops, duplicates, delays, partitions and outages, no packet's epoch is one that its
      receiver, if joined, has not reached; and every recorded loss is of a packet more than the
      overlap behind its receiver. */
  lemma NeverAheadNorLostInWindow(cfg: Config, joiners: set<Actor>, steps: seq<Step>)
    requires cfg.mbb && CarefulRun(cfg, Start(cfg, joiners), steps)
    ensures var w := After(cfg, Start(cfg, joiners), steps);
            && (forall env | env in w.net && env.Data? :: Reached(w.clients, env.dst, env.base))
            && (forall l | l in w.losses :: l.reached > l.sent + cfg.overlap)
  {
    RunPlane(cfg, joiners, steps);
    var w := After(cfg, Start(cfg, joiners), steps);
    forall env | env in w.net && env.Data? ensures Reached(w.clients, env.dst, env.base) {
      assert DataOk(cfg, w.clients, All(w), env);
    }
  }
}
