/** Interleaved runs of the ordering authority: several sequencers and any other callers share one
    lease store and one fenced register (ironcore/sequencer/fencing.go). */
module FencingRuns {
  import opened TreeMath
  import opened FencingSpec
  import opened Bytes

  /** A sequencer between its lease check and its register write. */
  datatype Pending = Idle | Writing(token: nat, epoch: nat, commit: Ref)

  /** minted: every token handed out, in order.  written: every token the register let through, in
      order.  won: every (slot, commit) answered true. */
  datatype System = System(
    store: Store, reg: Register, seqs: map<nat, Cached>, pc: map<nat, Pending>,
    minted: seq<(nat, nat)>, written: seq<(nat, nat)>, won: set<(seq<byte>, Ref)>)

  function Logged(minted: seq<(nat, nat)>, l: Option<Lease>): seq<(nat, nat)> {
    if l.None? then minted else minted + [(l.value.vni, l.value.token)]
  }

  /** The register write of any caller. */
  function WriteStep(s: System, vni: nat, token: nat, g: seq<byte>, epoch: nat, commit: Ref): System {
    var w := Accept(s.reg, vni, token, g, epoch, commit);
    s.(reg := w.register,
       written := if w.answer.Fenced? then s.written else s.written + [(vni, token)],
       won := if w.answer == Accepted(true) then s.won + {(SeqKey(g, epoch), commit)} else s.won)
  }

  /** Sequencer i checks its lease for a commit; on success it is about to write. */
  function CheckStep(s: System, i: nat, epoch: nat, commit: Ref, now: int, storeNow: int): System
    requires i in s.seqs
  {
    var p := Prepare(s.seqs[i], s.store, now, storeNow);
    s.(store := p.store, seqs := s.seqs[i := p.cached],
       pc := s.pc[i := if p.cached.lease.None? then Idle else Writing(p.cached.lease.value.token, epoch, commit)],
       minted := Logged(s.minted, p.mint))
  }

  function FinishStep(s: System, i: nat): System
    requires i in s.seqs && i in s.pc && s.pc[i].Writing?
  {
    var c, p := s.seqs[i], s.pc[i];
    WriteStep(s, c.vni, p.token, c.group, p.epoch, p.commit).(pc := s.pc[i := Idle])
  }

  ghost predicate IsStore(s: System, s': System) {
    exists vni: nat, owner: string, ttl: int, now: int ::
      var g := Acquire(s.store, vni, owner, ttl, now);
      s' == s.(store := g.store, minted := Logged(s.minted, g.lease))
  }

  ghost predicate IsRenew(s: System, s': System) {
    exists vni: nat, owner: string, token: nat, ttl: int, now: int ::
      s' == s.(store := Renew(s.store, vni, owner, token, ttl, now).store)
  }

  ghost predicate IsRelease(s: System, s': System) {
    exists vni: nat, owner: string, token: nat :: s' == s.(store := Release(s.store, vni, owner, token))
  }

  ghost predicate IsCheck(s: System, s': System) {
    exists i: nat, epoch: nat, commit: Ref, now: int, storeNow: int ::
      i in s.seqs && (i in s.pc ==> s.pc[i].Idle?) && s' == CheckStep(s, i, epoch, commit, now, storeNow)
  }

  ghost predicate IsFinish(s: System, s': System) {
    exists i: nat :: i in s.seqs && i in s.pc && s.pc[i].Writing? && s' == FinishStep(s, i)
  }

  ghost predicate IsWrite(s: System, s': System) {
    exists vni: nat, token: nat, g: seq<byte>, epoch: nat, commit: Ref ::
      s' == WriteStep(s, vni, token, g, epoch, commit)
  }

  /** Any caller's store or register call, or half of a sequencer's AcceptCommit, at any clock reading. */
  ghost predicate Next(s: System, s': System) {
    IsStore(s, s') || IsRenew(s, s') || IsRelease(s, s') || IsCheck(s, s') || IsFinish(s, s') || IsWrite(s, s')
  }

  ghost predicate Start(s: System) {
    s.store == Store(map[], map[]) && s.reg == Register(map[], map[]) && s.pc == map[] &&
    s.minted == [] && s.written == [] && s.won == {} && forall i :: i in s.seqs ==> s.seqs[i].lease.None?
  }

  ghost predicate Run(run: seq<System>) {
    |run| > 0 && Start(run[0]) && forall i :: 0 <= i < |run| - 1 ==> Next(run[i], run[i + 1])
  }

  // ---------------------------------------------------------------- safety under any clocks

  /** Entries of the trace for one VNI never go down (or, strictly, always go up). */
  predicate Ordered(trace: seq<(nat, nat)>, strict: bool) {
    forall i, h :: 0 <= i < h < |trace| && trace[i].0 == trace[h].0 ==>
      if strict then trace[i].1 < trace[h].1 else trace[i].1 <= trace[h].1
  }

  predicate Below(trace: seq<(nat, nat)>, top: map<nat, nat>) {
    forall i :: 0 <= i < |trace| ==> trace[i].1 <= Lookup(top, trace[i].0)
  }

  predicate WonDecided(won: set<(seq<byte>, Ref)>, decided: map<seq<byte>, Ref>) {
    forall x | x in won :: x.0 in decided && decided[x.0] == x.1
  }

  /** The newest token seen is one that was let through. */
  predicate Attained(written: seq<(nat, nat)>, maxToken: map<nat, nat>) {
    forall v | v in maxToken :: (v, maxToken[v]) in written
  }

  /** What register writes keep, whatever tokens they carry. */
  ghost predicate Guarded(s: System) {
    && Ordered(s.written, false) && Below(s.written, s.reg.maxToken) && Attained(s.written, s.reg.maxToken)
    && WonDecided(s.won, s.reg.decided)
  }

  /** What minting keeps until the counter wraps. */
  ghost predicate Mint(s: System) {
    && Ordered(s.minted, true) && Below(s.minted, s.store.next)
    && forall v: nat :: Lookup(s.store.next, v) <= |s.minted|
  }

  lemma AppendOrdered(trace: seq<(nat, nat)>, top: map<nat, nat>, v: nat, t: nat, strict: bool)
    requires Ordered(trace, strict) && Below(trace, top)
    requires if strict then Lookup(top, v) < t else Lookup(top, v) <= t
    ensures Ordered(trace + [(v, t)], strict) && Below(trace + [(v, t)], top[v := t])
  {
  }

  lemma AcquireKeeps(s: System, s': System, vni: nat, owner: string, ttl: int, now: int)
    requires Mint(s) && |s'.minted| < UINT64
    requires
      var g := Acquire(s.store, vni, owner, ttl, now);
      s'.store == g.store && s'.minted == Logged(s.minted, g.lease)
    ensures Mint(s')
  {
    var t := Lookup(s.store.next, vni) + 1;
    if Acquire(s.store, vni, owner, ttl, now).lease.Some? {
      assert t % UINT64 == t;
      AppendOrdered(s.minted, s.store.next, vni, t, true);
    }
    forall v: nat ensures Lookup(s'.store.next, v) <= |s'.minted| {
      assert Lookup(s.store.next, v) <= |s.minted|;
    }
  }

  lemma WriteKeeps(s: System, vni: nat, token: nat, g: seq<byte>, epoch: nat, commit: Ref)
    requires Guarded(s)
    ensures Guarded(WriteStep(s, vni, token, g, epoch, commit))
  {
    if token >= Lookup(s.reg.maxToken, vni) { AppendOrdered(s.written, s.reg.maxToken, vni, token, false); }
  }

  lemma NextGuarded(s: System, s': System)
    requires Guarded(s) && Next(s, s')
    ensures Guarded(s')
  {
    if IsFinish(s, s') {
      var i :| i in s.seqs && i in s.pc && s.pc[i].Writing? && s' == FinishStep(s, i);
      WriteKeeps(s, s.seqs[i].vni, s.pc[i].token, s.seqs[i].group, s.pc[i].epoch, s.pc[i].commit);
    } else if IsWrite(s, s') {
      var vni, token, g, epoch, commit :| s' == WriteStep(s, vni, token, g, epoch, commit);
      WriteKeeps(s, vni, token, g, epoch, commit);
    }
  }

  lemma NextMints(s: System, s': System)
    requires Mint(s) && Next(s, s') && |s'.minted| < UINT64
    ensures Mint(s')
  {
    if IsStore(s, s') {
      var vni, owner, ttl, now :|
        var g := Acquire(s.store, vni, owner, ttl, now);
        s' == s.(store := g.store, minted := Logged(s.minted, g.lease));
      AcquireKeeps(s, s', vni, owner, ttl, now);
    } else if IsCheck(s, s') {
      var i, epoch, commit, now, storeNow :|
        i in s.seqs && (i in s.pc ==> s.pc[i].Idle?) && s' == CheckStep(s, i, epoch, commit, now, storeNow);
      var c := s.seqs[i];
      if !(c.lease.Some? && Live(c.lease.value, now)) { AcquireKeeps(s, s', c.vni, c.owner, c.ttl, storeNow); }
    }
  }

  lemma {:induction false} RunGuarded(run: seq<System>, i: nat)
    requires Run(run) && i < |run|
    ensures Guarded(run[i])
  {
    if i > 0 {
      RunGuarded(run, i - 1);
      assert Next(run[i - 1], run[i - 1 + 1]);
      NextGuarded(run[i - 1], run[i]);
    }
  }

  lemma {:induction false} RunMints(run: seq<System>, i: nat)
    requires Run(run) && i < |run| && |run[i].minted| < UINT64
    ensures Mint(run[i])
  {
    if i > 0 {
      assert Next(run[i - 1], run[i - 1 + 1]);
      MintedGrows(run[i - 1], run[i]);
      RunMints(run, i - 1);
      NextMints(run[i - 1], run[i]);
    }
  }

  lemma MintedGrows(s: System, s': System)
    requires Next(s, s')
    ensures s.minted <= s'.minted
  {
  }

  /** In every run, however the clocks behave: tokens let through the register never decrease, no slot
      is ever won by two commits, and tokens minted for a VNI strictly increase as long as there are
      fewer of them than the 64-bit counter can tell apart. */
  lemma RunTokensAndWinners(run: seq<System>, i: nat)
    requires Run(run) && i < |run|
    ensures Ordered(run[i].written, false)
    ensures forall x, y :: x in run[i].won && y in run[i].won && x.0 == y.0 ==> x == y
    ensures |run[i].minted| < UINT64 ==> Ordered(run[i].minted, true)
  {
    RunGuarded(run, i);
    if |run[i].minted| < UINT64 { RunMints(run, i); }
  }

  /** Wins are never taken back. */
  lemma {:induction false} WinsLast(run: seq<System>, i: nat, h: nat)
    requires Run(run) && i <= h < |run|
    ensures run[i].won <= run[h].won
    decreases h - i
  {
    if i < h {
      WinsLast(run, i, h - 1);
      assert Next(run[h - 1], run[h - 1 + 1]);
    }
  }

  /** Once two commits have been answered true for the same group and epoch at any two times, they
      are the same commit. */
  lemma OneWinnerForever(run: seq<System>, i: nat, h: nat, g: seq<byte>, epoch: nat, a: Ref, b: Ref)
    requires Run(run) && i <= h < |run|
    requires (SeqKey(g, epoch), a) in run[i].won && (SeqKey(g, epoch), b) in run[h].won
    ensures a == b
  {
    WinsLast(run, i, h);
    RunTokensAndWinners(run, h);
  }

  lemma {:induction false} WritesLast(run: seq<System>, i: nat, h: nat)
    requires Run(run) && i <= h < |run|
    ensures run[i].written <= run[h].written
    decreases h - i
  {
    if i < h {
      WritesLast(run, i, h - 1);
      assert Next(run[h - 1], run[h - 1 + 1]);
    }
  }

  /** Once a token has reached the register, every later write of the VNI with a smaller token is
      fenced, whatever its group, epoch and commit. */
  lemma StaleFencedForever(run: seq<System>, i: nat, h: nat, vni: nat, newer: nat, token: nat, g: seq<byte>, epoch: nat,
                           commit: Ref)
    requires Run(run) && i <= h < |run| && (vni, newer) in run[i].written && token < newer
    ensures Accept(run[h].reg, vni, token, g, epoch, commit) == Write(run[h].reg, Fenced)
  {
    WritesLast(run, i, h);
    RunGuarded(run, h);
    assert (vni, newer) in run[h].written;
  }

  /** A write is about to be refused as fenced. */
  predicate PendingIsFenced(s: System, i: nat) {
    && i in s.seqs && i in s.pc && s.pc[i].Writing?
    && Accept(s.reg, s.seqs[i].vni, s.pc[i].token, s.seqs[i].group, s.pc[i].epoch, s.pc[i].commit).answer.Fenced?
  }

  /** The register has let a newer token of sequencer i's VNI through than the one i is about to write with. */
  ghost predicate Overtaken(s: System, i: nat) {
    && i in s.seqs && i in s.pc && s.pc[i].Writing?
    && exists t: nat :: t > s.pc[i].token && (s.seqs[i].vni, t) in s.written
  }

  /** In every run, with any clocks: a pending write is fenced if and only if a newer token of its VNI
      has already been let through. */
  lemma FencedIff(run: seq<System>, n: nat, i: nat)
    requires Run(run) && n < |run|
    ensures PendingIsFenced(run[n], i) <==> Overtaken(run[n], i)
  {
    RunGuarded(run, n);
    FencedIffGuarded(run[n], i);
  }

  lemma FencedIffGuarded(s: System, i: nat)
    requires Guarded(s)
    ensures PendingIsFenced(s, i) <==> Overtaken(s, i)
  {
    if PendingIsFenced(s, i) {
      var v := s.seqs[i].vni;
      assert (v, s.reg.maxToken[v]) in s.written;
    }
    if Overtaken(s, i) {
      var t: nat :| t > s.pc[i].token && (s.seqs[i].vni, t) in s.written;
      var h :| 0 <= h < |s.written| && s.written[h] == (s.seqs[i].vni, t);
    }
  }

  /** The mint is strictly monotone exactly until the 64-bit counter wraps. */
  lemma MintGrowsIff(s: Store, vni: nat, owner: string, ttl: int, now: int)
    requires Lookup(s.next, vni) < UINT64 && Acquire(s, vni, owner, ttl, now).lease.Some?
    ensures Acquire(s, vni, owner, ttl, now).lease.value.token > Lookup(s.next, vni) <==>
            Lookup(s.next, vni) + 1 < UINT64
  {
    var t := Lookup(s.next, vni) + 1;
    if t < UINT64 { assert t % UINT64 == t; } else { assert t % UINT64 == 0; }
  }

  // ---------------------------------------------------------------- one shared clock

  /** A system whose store and sequencers read one clock. */
  datatype Clocked = Clocked(sys: System, now: int)

  /** A lease check that reads the shared clock. */
  ghost predicate IsClockedCheck(s: Clocked, s': Clocked) {
    exists i: nat, epoch: nat, commit: Ref ::
      i in s.sys.seqs && (i in s.sys.pc ==> s.sys.pc[i].Idle?) &&
        s' == Clocked(CheckStep(s.sys, i, epoch, commit, s.now, s.now), s.now)
  }

  ghost predicate ClockedNext(s: Clocked, s': Clocked) {
    || (s'.sys == s.sys && s.now <= s'.now)
    || IsClockedCheck(s, s')
    || (s'.now == s.now && IsFinish(s.sys, s'.sys))
  }

  /** Distinct sequencers have distinct owner names. */
  ghost predicate ClockedRun(run: seq<Clocked>) {
    && |run| > 0 && Start(run[0].sys)
    && Owners(run[0].sys.seqs)
    && forall i :: 0 <= i < |run| - 1 ==> ClockedNext(run[i], run[i + 1])
  }

  predicate HoldsLive(s: Clocked, i: nat, vni: nat) {
    i in s.sys.seqs && s.sys.seqs[i].vni == vni && s.sys.seqs[i].lease.Some? && Live(s.sys.seqs[i].lease.value, s.now)
  }

  /** A cached lease is the sequencer's own, and while live it is the store's current one. */
  predicate SeqOk(s: Clocked, i: nat)
    requires i in s.sys.seqs
  {
    var c := s.sys.seqs[i];
    c.lease.Some? ==>
      var l := c.lease.value;
      l.owner == c.owner && l.vni == c.vni &&
        (Live(l, s.now) ==> c.vni in s.sys.store.held && s.sys.store.held[c.vni] == l)
  }

  ghost predicate Owners(seqs: map<nat, Cached>) {
    forall i, h :: i in seqs && h in seqs && i != h ==> seqs[i].owner != seqs[h].owner
  }

  ghost predicate Exclusive(s: Clocked) {
    (forall i :: i in s.sys.seqs ==> SeqOk(s, i)) && Owners(s.sys.seqs)
  }

  /** A granted lease outlives nobody's: every other lease of the VNI had expired. */
  lemma GrantedExclusive(s: Clocked, i: nat, epoch: nat, commit: Ref)
    requires Exclusive(s) && i in s.sys.seqs && !HoldsLive(s, i, s.sys.seqs[i].vni)
    requires Acquire(s.sys.store, s.sys.seqs[i].vni, s.sys.seqs[i].owner, s.sys.seqs[i].ttl, s.now).lease.Some?
    ensures Exclusive(Clocked(CheckStep(s.sys, i, epoch, commit, s.now, s.now), s.now))
  {
    var s' := Clocked(CheckStep(s.sys, i, epoch, commit, s.now, s.now), s.now);
    forall h | h in s'.sys.seqs ensures SeqOk(s', h) {
      assert SeqOk(s, h);
      assert SeqOk(s, i);
    }
  }

  lemma CheckExclusive(s: Clocked, i: nat, epoch: nat, commit: Ref)
    requires Exclusive(s) && i in s.sys.seqs
    ensures Exclusive(Clocked(CheckStep(s.sys, i, epoch, commit, s.now, s.now), s.now))
  {
    var c := s.sys.seqs[i];
    var s' := Clocked(CheckStep(s.sys, i, epoch, commit, s.now, s.now), s.now);
    if HoldsLive(s, i, c.vni) || Acquire(s.sys.store, c.vni, c.owner, c.ttl, s.now).lease.None? {
      forall h | h in s'.sys.seqs ensures SeqOk(s', h) { assert SeqOk(s, h); }
    } else {
      GrantedExclusive(s, i, epoch, commit);
    }
  }

  lemma SameExclusive(s: Clocked, s': Clocked)
    requires Exclusive(s) && s'.sys.seqs == s.sys.seqs && s'.sys.store == s.sys.store && s.now <= s'.now
    ensures Exclusive(s')
  {
    forall h | h in s'.sys.seqs ensures SeqOk(s', h) { assert SeqOk(s, h); }
  }

  lemma ClockedExclusive(s: Clocked, s': Clocked)
    requires Exclusive(s) && ClockedNext(s, s')
    ensures Exclusive(s')
  {
    if IsClockedCheck(s, s') {
      var i: nat, epoch: nat, commit: Ref :|
        i in s.sys.seqs && (i in s.sys.pc ==> s.sys.pc[i].Idle?) &&
        s' == Clocked(CheckStep(s.sys, i, epoch, commit, s.now, s.now), s.now);
      CheckExclusive(s, i, epoch, commit);
    } else {
      SameExclusive(s, s');
    }
  }

  lemma {:induction false} RunExclusive(run: seq<Clocked>, i: nat)
    requires ClockedRun(run) && i < |run|
    ensures Exclusive(run[i])
  {
    if i > 0 {
      RunExclusive(run, i - 1);
      assert ClockedNext(run[i - 1], run[i - 1 + 1]);
      ClockedExclusive(run[i - 1], run[i]);
    }
  }

  /** At every instant at most one sequencer holds a live lease on a VNI. */
  lemma OneLiveHolder(run: seq<Clocked>, n: nat, i: nat, h: nat, vni: nat)
    requires ClockedRun(run) && n < |run| && HoldsLive(run[n], i, vni) && HoldsLive(run[n], h, vni)
    ensures i == h
  {
    RunExclusive(run, n);
    assert SeqOk(run[n], i) && SeqOk(run[n], h);
  }

  /** While one holds a live lease, every other sequencer of the VNI stands by: its check leaves it
      without a lease and about to write nothing, and changes neither store nor register. */
  lemma OthersStandBy(run: seq<Clocked>, n: nat, i: nat, h: nat, vni: nat, epoch: nat, commit: Ref)
    requires ClockedRun(run) && n < |run| && HoldsLive(run[n], i, vni)
    requires h in run[n].sys.seqs && h != i && run[n].sys.seqs[h].vni == vni
    ensures
      var s := run[n].sys;
      var s' := CheckStep(s, h, epoch, commit, run[n].now, run[n].now);
      && s'.pc[h] == Idle && s'.seqs[h].lease == None
      && s'.store == s.store && s'.reg == s.reg && s'.written == s.written && s'.won == s.won
  {
    RunExclusive(run, n);
    assert SeqOk(run[n], i) && SeqOk(run[n], h);
  }

  // ---------------------------------------------------------------- fencing under one shared clock

  /** The steps of a clocked run are steps of any run, or the clock's. */
  lemma ClockedIsNext(s: Clocked, s': Clocked)
    requires ClockedNext(s, s') && s'.sys != s.sys
    ensures Next(s.sys, s'.sys)
  {
    if IsClockedCheck(s, s') {
      var i: nat, epoch: nat, commit: Ref :|
        i in s.sys.seqs && (i in s.sys.pc ==> s.sys.pc[i].Idle?) &&
        s' == Clocked(CheckStep(s.sys, i, epoch, commit, s.now, s.now), s.now);
      assert IsCheck(s.sys, s'.sys);
    }
  }

  /** A cached token is one the store has minted, the newest one while the lease is live; a pending
      write carries the cached token. */
  predicate TokenOk(s: Clocked, i: nat)
    requires i in s.sys.seqs
  {
    var c := s.sys.seqs[i];
    && (c.lease.Some? ==>
          var newest := Lookup(s.sys.store.next, c.vni);
          c.lease.value.token <= newest && (Live(c.lease.value, s.now) ==> c.lease.value.token == newest))
    && (i in s.sys.pc && s.sys.pc[i].Writing? ==> c.lease.Some? && s.sys.pc[i].token == c.lease.value.token)
  }

  predicate WrittenMinted(written: seq<(nat, nat)>, next: map<nat, nat>) {
    forall x | x in written :: x.1 <= Lookup(next, x.0)
  }

  ghost predicate Tokens(s: Clocked) {
    && Exclusive(s) && Guarded(s.sys) && Mint(s.sys)
    && (forall i :: i in s.sys.seqs ==> TokenOk(s, i))
    && WrittenMinted(s.sys.written, s.sys.store.next)
  }

  lemma CheckTokens(s: Clocked, i: nat, epoch: nat, commit: Ref)
    requires Tokens(s) && i in s.sys.seqs && |CheckStep(s.sys, i, epoch, commit, s.now, s.now).minted| < UINT64
    ensures
      var s' := Clocked(CheckStep(s.sys, i, epoch, commit, s.now, s.now), s.now);
      (forall h :: h in s'.sys.seqs ==> TokenOk(s', h)) && WrittenMinted(s'.sys.written, s'.sys.store.next)
  {
    var s' := Clocked(CheckStep(s.sys, i, epoch, commit, s.now, s.now), s.now);
    var t := Lookup(s.sys.store.next, s.sys.seqs[i].vni) + 1;
    assert s'.sys.minted != s.sys.minted ==> t % UINT64 == t;
    forall h | h in s'.sys.seqs ensures TokenOk(s', h) {
      assert TokenOk(s, h) && SeqOk(s, h);
      assert TokenOk(s, i) && SeqOk(s, i);
    }
  }

  lemma FinishTokens(s: Clocked, i: nat)
    requires Tokens(s) && i in s.sys.seqs && i in s.sys.pc && s.sys.pc[i].Writing?
    ensures
      var s' := Clocked(FinishStep(s.sys, i), s.now);
      (forall h :: h in s'.sys.seqs ==> TokenOk(s', h)) && WrittenMinted(s'.sys.written, s'.sys.store.next)
  {
    var s' := Clocked(FinishStep(s.sys, i), s.now);
    assert TokenOk(s, i) && SeqOk(s, i);
    forall h | h in s'.sys.seqs ensures TokenOk(s', h) { assert TokenOk(s, h); }
  }

  lemma ClockedTokens(s: Clocked, s': Clocked)
    requires Tokens(s) && ClockedNext(s, s') && |s'.sys.minted| < UINT64
    ensures Tokens(s')
  {
    ClockedExclusive(s, s');
    if s'.sys == s.sys {
      forall h | h in s'.sys.seqs ensures TokenOk(s', h) { assert TokenOk(s, h); }
    } else {
      ClockedIsNext(s, s');
      NextGuarded(s.sys, s'.sys);
      NextMints(s.sys, s'.sys);
      if IsClockedCheck(s, s') {
        var i: nat, epoch: nat, commit: Ref :|
          i in s.sys.seqs && (i in s.sys.pc ==> s.sys.pc[i].Idle?) &&
          s' == Clocked(CheckStep(s.sys, i, epoch, commit, s.now, s.now), s.now);
        CheckTokens(s, i, epoch, commit);
      } else {
        var h :| h in s.sys.seqs && h in s.sys.pc && s.sys.pc[h].Writing? && s'.sys == FinishStep(s.sys, h);
        FinishTokens(s, h);
      }
    }
  }

  lemma ClockedMintedGrows(s: Clocked, s': Clocked)
    requires ClockedNext(s, s')
    ensures s.sys.minted <= s'.sys.minted
  {
    if s'.sys != s.sys {
      ClockedIsNext(s, s');
      MintedGrows(s.sys, s'.sys);
    }
  }

  lemma {:induction false} RunTokens(run: seq<Clocked>, i: nat)
    requires ClockedRun(run) && i < |run| && |run[i].sys.minted| < UINT64
    ensures Tokens(run[i])
  {
    RunExclusive(run, i);
    if i > 0 {
      assert ClockedNext(run[i - 1], run[i - 1 + 1]);
      ClockedMintedGrows(run[i - 1], run[i]);
      RunTokens(run, i - 1);
      ClockedTokens(run[i - 1], run[i]);
    }
  }

  /** A write under a lease that is still live is never fenced. */
  lemma LiveWriteNotFenced(run: seq<Clocked>, n: nat, i: nat)
    requires ClockedRun(run) && n < |run| && |run[n].sys.minted| < UINT64
    requires i in run[n].sys.seqs && HoldsLive(run[n], i, run[n].sys.seqs[i].vni)
    ensures !PendingIsFenced(run[n].sys, i)
  {
    RunTokens(run, n);
    FencedIffGuarded(run[n].sys, i);
    assert TokenOk(run[n], i);
  }

  /** A check that reaches the register at once, with no step in between, is never fenced. */
  lemma AtomicAcceptNotFenced(run: seq<Clocked>, n: nat, i: nat, epoch: nat, commit: Ref)
    requires ClockedRun(run) && n < |run| && i in run[n].sys.seqs && (i in run[n].sys.pc ==> run[n].sys.pc[i].Idle?)
    requires |CheckStep(run[n].sys, i, epoch, commit, run[n].now, run[n].now).minted| < UINT64
    ensures !PendingIsFenced(CheckStep(run[n].sys, i, epoch, commit, run[n].now, run[n].now), i)
  {
    var s := run[n];
    var s' := Clocked(CheckStep(s.sys, i, epoch, commit, s.now, s.now), s.now);
    RunTokens(run, n);
    assert IsClockedCheck(s, s');
    ClockedTokens(s, s');
    FencedIffGuarded(s'.sys, i);
    NewestIfPending(s, i, epoch, commit);
  }

  lemma NewestIfPending(s: Clocked, i: nat, epoch: nat, commit: Ref)
    requires Tokens(s) && i in s.sys.seqs && |CheckStep(s.sys, i, epoch, commit, s.now, s.now).minted| < UINT64
    ensures
      var s' := CheckStep(s.sys, i, epoch, commit, s.now, s.now);
      s'.pc[i].Writing? ==> s'.pc[i].token == Lookup(s'.store.next, s'.seqs[i].vni)
  {
    var t := Lookup(s.sys.store.next, s.sys.seqs[i].vni) + 1;
    assert TokenOk(s, i);
    assert CheckStep(s.sys, i, epoch, commit, s.now, s.now).minted != s.sys.minted ==> t % UINT64 == t;
  }

  /** In this step sequencer h is granted lease l. */
  ghost predicate Grants(s: Clocked, s': Clocked, h: nat, l: Lease) {
    && h in s.sys.seqs
    && var c, st := s.sys.seqs[h], s.sys.store;
       && l == Lease(c.vni, c.owner, Lookup(st.next, c.vni) + 1, s.now + c.ttl)
       && (c.vni in st.held ==> st.held[c.vni].owner == c.owner || !Live(st.held[c.vni], s.now))
       && (c.lease.Some? ==> !Live(c.lease.value, s.now))
       && s'.sys.store == Store(st.held[c.vni := l], st.next[c.vni := l.token])
       && s'.sys.seqs == s.sys.seqs[h := c.(lease := Some(l))] && s'.sys.minted == s.sys.minted + [(c.vni, l.token)]
  }

  /** In this step nothing is granted; at most a sequencer drops its lease. */
  ghost predicate Quiet(s: Clocked, s': Clocked) {
    && s'.sys.store == s.sys.store && s'.sys.minted == s.sys.minted
    && forall h | h in s'.sys.seqs ::
         h in s.sys.seqs && s'.sys.seqs[h] in {s.sys.seqs[h], s.sys.seqs[h].(lease := None)}
  }

  lemma ClockedView(s: Clocked, s': Clocked)
    requires Mint(s.sys) && ClockedNext(s, s') && |s'.sys.minted| < UINT64
    ensures Quiet(s, s') || exists h, l :: Grants(s, s', h, l)
  {
    if IsClockedCheck(s, s') {
      var i: nat, epoch: nat, commit: Ref :|
        i in s.sys.seqs && (i in s.sys.pc ==> s.sys.pc[i].Idle?) &&
        s' == Clocked(CheckStep(s.sys, i, epoch, commit, s.now, s.now), s.now);
      CheckView(s, i, epoch, commit);
    }
  }

  lemma CheckView(s: Clocked, i: nat, epoch: nat, commit: Ref)
    requires Mint(s.sys) && i in s.sys.seqs && |CheckStep(s.sys, i, epoch, commit, s.now, s.now).minted| < UINT64
    ensures var s' := Clocked(CheckStep(s.sys, i, epoch, commit, s.now, s.now), s.now);
            Quiet(s, s') || exists l :: Grants(s, s', i, l)
  {
    var c := s.sys.seqs[i];
    var s' := Clocked(CheckStep(s.sys, i, epoch, commit, s.now, s.now), s.now);
    var g := Acquire(s.sys.store, c.vni, c.owner, c.ttl, s.now);
    if !HoldsLive(s, i, c.vni) && g.lease.Some? {
      var t := Lookup(s.sys.store.next, c.vni) + 1;
      assert t % UINT64 == t;
      assert Grants(s, s', i, g.lease.value);
    }
  }

  /** In this step sequencer h, not l's owner, is granted token t for l's VNI after l has run out. */
  ghost predicate TookOver(before: Clocked, after: Clocked, h: nat, l: Lease, t: nat) {
    && h in before.sys.seqs && h in after.sys.seqs && before.sys.seqs[h].owner != l.owner
    && after.sys.seqs[h].lease == Some(Lease(l.vni, before.sys.seqs[h].owner, t, before.now + before.sys.seqs[h].ttl))
    && after.sys.minted == before.sys.minted + [(l.vni, t)]
    && !Live(l, before.now)
  }

  ghost predicate TookOverAt(run: seq<Clocked>, m: nat, h: nat, l: Lease, t: nat) {
    m + 1 < |run| && TookOver(run[m], run[m + 1], h, l, t)
  }

  /** Some other sequencer took over from lease l and its newer token has been let through. */
  ghost predicate Superseded(run: seq<Clocked>, n: nat, l: Lease)
    requires n < |run|
  {
    exists m: nat, h: nat, t: nat ::
      m < n && TookOverAt(run, m, h, l, t) && t > l.token && (l.vni, t) in run[n].sys.written
  }

  /** Under one shared clock a pending write is fenced exactly when its lease ran out, another
      sequencer was granted a newer token after that, and that token has been let through. */
  lemma FencedByTakeoverIff(run: seq<Clocked>, n: nat, i: nat)
    requires ClockedRun(run) && n < |run| && |run[n].sys.minted| < UINT64
    requires i in run[n].sys.seqs && i in run[n].sys.pc && run[n].sys.pc[i].Writing?
    ensures run[n].sys.seqs[i].lease.Some?
    ensures PendingIsFenced(run[n].sys, i) <==> Superseded(run, n, run[n].sys.seqs[i].lease.value)
  {
    RunTokens(run, n);
    FencedIffGuarded(run[n].sys, i);
    assert TokenOk(run[n], i) && SeqOk(run[n], i);
    var c := run[n].sys.seqs[i];
    var l := c.lease.value;
    if PendingIsFenced(run[n].sys, i) {
      var t: nat :| t > l.token && (l.vni, t) in run[n].sys.written;
      var m, h := GrantedAfter(run, n, i, t);
      assert TookOverAt(run, m, h, l, t);
    }
  }

  ghost predicate MintStepOk(s: Clocked, s': Clocked) {
    Mint(s.sys) && ClockedNext(s, s') && |s'.sys.minted| < UINT64
  }

  lemma StepBack(run: seq<Clocked>, n: nat)
    requires ClockedRun(run) && 0 < n < |run| && |run[n].sys.minted| < UINT64
    ensures MintStepOk(run[n - 1], run[n]) && |run[n - 1].sys.minted| < UINT64
  {
    assert ClockedNext(run[n - 1], run[n - 1 + 1]);
    ClockedMintedGrows(run[n - 1], run[n]);
    RunTokens(run, n - 1);
  }

  /** The lease has been cached since before the store went past its token. */
  lemma {:induction false} LeaseStays(run: seq<Clocked>, m: nat, n: nat, i: nat)
    requires ClockedRun(run) && m <= n < |run| && |run[n].sys.minted| < UINT64
    requires i in run[n].sys.seqs && run[n].sys.seqs[i].lease.Some?
    requires run[n].sys.seqs[i].lease.value.token <= Lookup(run[m].sys.store.next, run[n].sys.seqs[i].vni)
    ensures i in run[m].sys.seqs && run[m].sys.seqs[i] == run[n].sys.seqs[i]
    decreases n - m
  {
    if m < n {
      StepBack(run, n);
      NextGrows(run, m, n - 1, run[n].sys.seqs[i].vni);
      CachedBefore(run[n - 1], run[n], i);
      LeaseStays(run, m, n - 1, i);
    }
  }

  lemma {:induction false} NextGrows(run: seq<Clocked>, m: nat, n: nat, vni: nat)
    requires ClockedRun(run) && m <= n < |run| && |run[n].sys.minted| < UINT64
    ensures Lookup(run[m].sys.store.next, vni) <= Lookup(run[n].sys.store.next, vni)
    decreases n - m
  {
    if m < n {
      StepBack(run, n);
      NextGrows(run, m, n - 1, vni);
      StepGrows(run[n - 1], run[n], vni);
    }
  }

  /** One step leaves the counter alone or advances it by one. */
  lemma StepGrows(s: Clocked, s': Clocked, vni: nat)
    requires MintStepOk(s, s')
    ensures var was, now := Lookup(s.sys.store.next, vni), Lookup(s'.sys.store.next, vni); now == was || now == was + 1
  {
    ClockedView(s, s');
  }

  /** A sequencer's cache changes only by its own check, which drops the lease or caches a token the
      counter has only now reached. */
  lemma CachedBefore(s: Clocked, s': Clocked, i: nat)
    requires MintStepOk(s, s') && i in s'.sys.seqs && s'.sys.seqs[i].lease.Some?
    requires s'.sys.seqs[i].lease.value.token <= Lookup(s.sys.store.next, s'.sys.seqs[i].vni)
    ensures i in s.sys.seqs && s.sys.seqs[i] == s'.sys.seqs[i]
  {
    ClockedView(s, s');
  }

  /** The step at which a token newer than sequencer i's lease was granted. */
  lemma {:induction false} GrantedAfter(run: seq<Clocked>, n: nat, i: nat, t: nat) returns (m: nat, h: nat)
    requires ClockedRun(run) && n < |run| && |run[n].sys.minted| < UINT64
    requires i in run[n].sys.seqs && run[n].sys.seqs[i].lease.Some?
    requires run[n].sys.seqs[i].lease.value.token < t <= Lookup(run[n].sys.store.next, run[n].sys.seqs[i].vni)
    ensures m < n && TookOver(run[m], run[m + 1], h, run[n].sys.seqs[i].lease.value, t)
  {
    RunTokens(run, n);
    m := MintStep(run, n, run[n].sys.seqs[i].vni, t);
    assert ClockedNext(run[m], run[m + 1]);
    MintedUpTo(run, m + 1, n);
    RunTokens(run, m);
    LeaseStays(run, m, n, i);
    LeaseStays(run, m + 1, n, i);
    h := Taker(run[m], run[m + 1], i, t);
  }

  lemma {:induction false} MintedUpTo(run: seq<Clocked>, m: nat, n: nat)
    requires ClockedRun(run) && m <= n < |run|
    ensures run[m].sys.minted <= run[n].sys.minted
    decreases n - m
  {
    if m < n {
      assert ClockedNext(run[n - 1], run[n - 1 + 1]);
      ClockedMintedGrows(run[n - 1], run[n]);
      MintedUpTo(run, m, n - 1);
    }
  }

  /** The step at which the counter reached t. */
  lemma {:induction false} MintStep(run: seq<Clocked>, n: nat, vni: nat, t: nat) returns (m: nat)
    requires ClockedRun(run) && n < |run| && |run[n].sys.minted| < UINT64 && 0 < t <= Lookup(run[n].sys.store.next, vni)
    ensures m < n && Lookup(run[m].sys.store.next, vni) == t - 1 && Lookup(run[m + 1].sys.store.next, vni) == t
  {
    if n > 0 {
      StepBack(run, n);
      StepGrows(run[n - 1], run[n], vni);
      if t <= Lookup(run[n - 1].sys.store.next, vni) { m := MintStep(run, n - 1, vni, t); } else { m := n - 1; }
    }
  }

  /** Whoever is granted the next token while i still caches a lease takes over from it. */
  lemma Taker(s: Clocked, s': Clocked, i: nat, t: nat) returns (h: nat)
    requires Tokens(s) && ClockedNext(s, s') && |s'.sys.minted| < UINT64
    requires i in s.sys.seqs && s.sys.seqs[i].lease.Some? && i in s'.sys.seqs && s'.sys.seqs[i] == s.sys.seqs[i]
    requires Lookup(s.sys.store.next, s.sys.seqs[i].vni) == t - 1 && Lookup(s'.sys.store.next, s.sys.seqs[i].vni) == t
    ensures TookOver(s, s', h, s.sys.seqs[i].lease.value, t)
  {
    ClockedView(s, s');
    assert SeqOk(s, i) && TokenOk(s, i);
    var l: Lease;
    h, l :| Grants(s, s', h, l);
  }

  /** The gap between check and write is real: a sequencer whose lease expires in it is fenced by
      the standby that took over, even under one shared clock. */
  lemma FencedAcrossExpiry(g: seq<byte>, x: Ref, y: Ref) returns (run: seq<Clocked>)
    ensures ClockedRun(run) && PendingIsFenced(run[|run| - 1].sys, 0)
  {
    var a, b := Cached("a", 0, g, 1, None), Cached("b", 0, g, 1, None);
    var la, lb := Lease(0, "a", 1, 1), Lease(0, "b", 2, 2);
    var empty, pa, pb := Register(map[], map[]), Writing(1, 0, x), Writing(2, 0, y);
    var s0 := System(Store(map[], map[]), empty, map[0 := a, 1 := b], map[], [], [], {});
    var s1 := System(Store(map[0 := la], map[0 := 1]), empty, map[0 := a.(lease := Some(la)), 1 := b], map[0 := pa],
      [(0, 1)], [], {});
    var s2 := System(Store(map[0 := lb], map[0 := 2]), empty,
      map[0 := a.(lease := Some(la)), 1 := b.(lease := Some(lb))],
                     map[0 := pa, 1 := pb], [(0, 1), (0, 2)], [], {});
    var s3 := FinishStep(s2, 1);
    assert "a"[0] != "b"[0];
    assert CheckStep(s0, 0, 0, x, 0, 0) == s1;
    assert CheckStep(s1, 1, 0, y, 1, 1) == s2 by {
      assert s1.store.held[0 := lb] == s2.store.held && s1.store.next[0 := 2] == s2.store.next;
      assert s1.seqs[1 := b.(lease := Some(lb))] == s2.seqs && s1.pc[1 := pb] == s2.pc;
    }
    run := [Clocked(s0, 0), Clocked(s1, 0), Clocked(s1, 1), Clocked(s2, 1), Clocked(s3, 1)];
    FiveSteps(run, g, x, y);
  }

  lemma FiveSteps(run: seq<Clocked>, g: seq<byte>, x: Ref, y: Ref)
    requires |run| == 5 && Start(run[0].sys)
    requires run[0].sys.seqs == map[0 := Cached("a", 0, g, 1, None), 1 := Cached("b", 0, g, 1, None)]
    requires run[0].now == 0 && run[1] == Clocked(CheckStep(run[0].sys, 0, 0, x, 0, 0), 0)
    requires run[2] == Clocked(run[1].sys, 1)
    requires 1 in run[2].sys.seqs && 1 !in run[2].sys.pc && run[3] == Clocked(CheckStep(run[2].sys, 1, 0, y, 1, 1), 1)
    requires 1 in run[3].sys.seqs && 1 in run[3].sys.pc && run[3].sys.pc[1].Writing?
    requires run[4] == Clocked(FinishStep(run[3].sys, 1), 1)
    ensures ClockedRun(run)
  {
    assert "a"[0] != "b"[0];
    assert IsClockedCheck(run[0], run[1]);
    assert IsClockedCheck(run[2], run[3]);
    assert IsFinish(run[3].sys, run[4].sys);
    assert ClockedNext(run[0], run[0 + 1]) && ClockedNext(run[1], run[1 + 1]) && ClockedNext(run[2], run[2 + 1]) &&
      ClockedNext(run[3], run[3 + 1]);
  }
}
