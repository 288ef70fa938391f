/** The client's channel state and the reflector as they are updated in place (sim/client.go,
    sim/ds.go); every handler is proved to take the state where the model says. */
module Clients {

  import opened TreeMath
  import opened Delivery
  import ReplayWindow

  class VniState {
    const self: Actor
    const cfg: Config
    var joined: bool
    var hist: History
    var joinEpoch: nat
    var sas: map<nat, Sa>
    var inSpis: map<nat, set<nat>>
    var peerEpoch: map<Actor, nat>
    var heard: set<Actor>
    var outbox: map<nat, History>
    var confirmed: set<nat>
    var head: Option<nat>
    var pendingWelcome: map<Actor, History>
    var sendSeq: map<nat, nat>
    var replay: map<nat, ReplayWindow.Window>

    function State(): Channel
      reads this
    {
      Channel(joined, hist, joinEpoch, sas, inSpis, peerEpoch, heard, outbox, confirmed, head, pendingWelcome, sendSeq,
        replay)
    }

    constructor Prospective(cfg: Config, self: Actor)
      ensures State() == Blank && this.self == self && this.cfg == cfg
    {
      this.cfg, this.self := cfg, self;
      joined, hist, joinEpoch, sas, inSpis, peerEpoch, heard := false, [], 0, map[], map[], map[], {};
      outbox, confirmed, head, pendingWelcome, sendSeq, replay := map[], {}, None, map[], map[], map[];
    }

    constructor Found(cfg: Config)
      ensures State() == Delivery.Found(cfg) && self == FOUNDER && this.cfg == cfg
    {
      this.cfg, self := cfg, FOUNDER;
      joined, hist, joinEpoch, sas, inSpis, peerEpoch, heard := true, [], 0, map[], map[], map[], {};
      outbox, confirmed, head, pendingWelcome, sendSeq, replay := map[], {}, None, map[], map[], map[];
      new;
      CacheCurrentSA();
    }

    method CacheCurrentSA()
      modifies this`sas, this`inSpis
      ensures State() == CacheSa(cfg, self, old(State()))
    {
      if !joined { return; }
      var spis := CurrentSpis();
      sas := sas[|hist| := SaAt(cfg, hist, self)];
      inSpis := inSpis[|hist| := spis];
      TrimSAs();
    }

    method CurrentSpis() returns (spis: set<nat>)
      ensures spis == SpisAt(cfg, hist)
    {
      var roster := RosterAt(hist);
      spis := {cfg.groupSpi(hist)};
      var i := 0;
      while i < |roster|
        invariant 0 <= i <= |roster|
        invariant spis == {cfg.groupSpi(hist)} + set j | 0 <= j < i && roster[j].Some? :: cfg.senderSpi(hist, j)
      {
        if roster[i].Some? { spis := spis + {cfg.senderSpi(hist, i)}; }
        i := i + 1;
      }
    }

    method TrimSAs()
      modifies this`sas, this`inSpis
      ensures State() == TrimSas(cfg, old(State()))
    {
      ghost var cached, held := sas, inSpis;
      var left := sas.Keys;
      while left != {}
        invariant left <= cached.Keys
        invariant sas == Trimming(cfg, |hist|, cached.Keys, left, cached)
        invariant inSpis == Trimming(cfg, |hist|, cached.Keys, left, held)
        decreases left
      {
        var e :| e in left;
        TrimmingStep(cfg, |hist|, cached.Keys, left, e, cached);
        TrimmingStep(cfg, |hist|, cached.Keys, left, e, held);
        if |hist| >= EffectiveW(cfg) && e < |hist| - EffectiveW(cfg) {
          sas, inSpis := sas - {e}, inSpis - {e};
        }
        left := left - {e};
      }
    }

    method InitPeerEpochForNewMembers(before: set<Actor>)
      modifies this`peerEpoch
      ensures State() == SeedNew(self, old(State()), before)
    {
      var roster := RosterAt(hist);
      ghost var known := peerEpoch;
      var i := 0;
      while i < |roster|
        invariant 0 <= i <= |roster|
        invariant peerEpoch == Seeded(known, Members(roster[..i]) - before - {self}, |hist|)
      {
        MembersSnoc(roster, i);
        if roster[i].Some? {
          SeedStep(known, Members(roster[..i]) - before - {self}, roster[i].value, |hist|);
          NewSnoc(Members(roster[..i]), before, self, roster[i].value);
          if roster[i].value !in before && roster[i].value != self && roster[i].value !in peerEpoch {
            peerEpoch := peerEpoch[roster[i].value := |hist|];
          }
        }
        i := i + 1;
      }
      assert roster[..i] == roster;
    }

    method PruneDepartedPeers()
      modifies this`peerEpoch, this`heard
      ensures old(joined) ==> State() == PruneDeparted(old(State()))
      ensures !old(joined) ==> State() == old(State())
    {
      if !joined { return; }
      var members := MembersAt(hist);
      ghost var known, listened := peerEpoch, heard;
      var left := peerEpoch.Keys;
      while left != {}
        invariant left <= known.Keys
        invariant peerEpoch == map a | a in known && (a in left || a in members) :: known[a]
        invariant heard == listened - (known.Keys - left - members)
        decreases left
      {
        var a :| a in left;
        if a !in members { peerEpoch, heard := peerEpoch - {a}, heard - {a}; }
        left := left - {a};
      }
    }

    /** The lowest active leaf commits, once its head is confirmed and no Welcome is outstanding. */
    method CanCommit() returns (ok: bool)
      ensures ok == Delivery.CanCommit(self, State())
    {
      if !joined || !IsCommitter(hist, self) { return false; }
      if |pendingWelcome| > 0 { return false; }
      if head.Some? && head.value !in confirmed { return false; }
      ok := true;
    }

    method RecordHead(base: nat, commit: History)
      modifies this`outbox, this`head
      ensures State() == Delivery.RecordHead(old(State()), base, commit)
    {
      outbox := outbox[base := commit];
      head := Some(base);
    }

    method Reconcile(desired: seq<Actor>, resolvable: set<Actor>, nonce: nat) returns (out: set<Envelope>)
      modifies this
      ensures Effect(State(), out) == Delivery.Reconcile(cfg, self, old(State()), desired, resolvable, nonce)
    {
      out := {};
      var ok := CanCommit();
      if !ok { return; }
      var change := Difference(self, hist, desired, resolvable, nonce);
      if change.None? { return; }
      out := Issue(change.value);
    }

    method Issue(change: Change) returns (out: set<Envelope>)
      requires joined
      modifies this
      ensures Effect(State(), out) == Delivery.Issue(cfg, self, old(State()), change)
    {
      var base := |hist|;
      hist := hist + [change];
      CacheCurrentSA();
      PruneDepartedPeers();
      RecordHead(base, hist);
      ghost var moved := State();
      assert moved == Delivery.RecordHead(PruneDeparted(CacheSa(cfg, self, old(State()).(hist := hist))), base, hist);
      out := {Commit(false, base, hist)};
      out := Invite(change.adds, out);
    }

    /** Seeds, records and invites those a commit added. */
    method Invite(adds: seq<Actor>, sent: set<Envelope>) returns (out: set<Envelope>)
      modifies this`peerEpoch, this`pendingWelcome
      ensures var joiners, was := set a | a in adds, old(State());
              && State() == was.(peerEpoch := Seeded(was.peerEpoch, joiners - {self}, Epoch(was)),
                                 pendingWelcome := was.pendingWelcome + map a | a in joiners :: hist)
              && out == sent + set a | a in joiners :: Welcome(false, a, hist)
    {
      ghost var known, waiting := peerEpoch, pendingWelcome;
      out := sent;
      var i := 0;
      while i < |adds|
        invariant 0 <= i <= |adds|
        invariant peerEpoch == Seeded(known, Named(adds[..i]) - {self}, |hist|)
        invariant pendingWelcome == Pending(waiting, Named(adds[..i]), hist)
        invariant out == Invited(sent, Named(adds[..i]), hist)
      {
        var a := adds[i];
        NamedSnoc(adds, i);
        SeedStep(known, Named(adds[..i]) - {self}, a, |hist|);
        OthersSnoc(Named(adds[..i]), self, a);
        PendingStep(waiting, Named(adds[..i]), a, hist);
        InvitedStep(sent, Named(adds[..i]), a, hist);
        if a != self && a !in peerEpoch { peerEpoch := peerEpoch[a := |hist|]; }
        pendingWelcome := pendingWelcome[a := hist];
        out := out + {Welcome(false, a, hist)};
        i := i + 1;
      }
      assert adds[..i] == adds;
    }

    method Rekey(nonce: nat) returns (out: set<Envelope>)
      modifies this
      ensures Effect(State(), out) == Delivery.Rekey(cfg, self, old(State()), nonce)
    {
      out := {};
      var ok := CanCommit();
      if !ok { return; }
      var base := |hist|;
      hist := hist + [Change({}, [], nonce)];
      CacheCurrentSA();
      RecordHead(base, hist);
      out := {Commit(false, base, hist)};
    }

    method ResendUnacked() returns (out: set<Envelope>)
      ensures out == Delivery.ResendUnacked(self, State())
    {
      out := {};
      if !joined || !IsCommitter(hist, self) { return; }
      if head.Some? && head.value !in confirmed {
        if head.value in outbox { out := {Commit(false, head.value, outbox[head.value])}; }
      }
      ghost var first := out;
      var left := pendingWelcome.Keys;
      while left != {}
        invariant left <= pendingWelcome.Keys
        invariant out == first + set a | a in pendingWelcome && a !in left :: Welcome(false, a, pendingWelcome[a])
        decreases left
      {
        var a :| a in left;
        out := out + {Welcome(false, a, pendingWelcome[a])};
        left := left - {a};
      }
    }

    method EmitHeartbeat() returns (out: set<Envelope>)
      ensures out == Delivery.EmitHeartbeat(self, State())
    {
      if !joined { return {}; }
      var resent := ResendUnacked();
      out := {Heartbeat(self, |hist|)} + resent;
    }

    /** Applies a commit at the member's own epoch; gone is finding itself removed. */
    method ApplyCommit(commit: History) returns (gone: bool)
      requires joined
      modifies this
      ensures (if gone then None else Some(State())) == Apply(cfg, self, old(State()), commit)
      ensures !gone ==> joined
    {
      gone := false;
      var before := MembersAt(hist);
      match HandleCommit(self, hist, commit)
      case Applied(h) =>
        hist := h;
        CacheCurrentSA();
        InitPeerEpochForNewMembers(before);
        PruneDepartedPeers();
      case SelfRemoved => gone := true;
      case Rejected =>
    }

    method OnCommit(echo: bool, base: nat, commit: History) returns (gone: bool)
      modifies this
      ensures (if gone then None else Some(State())) == Delivery.OnCommit(cfg, self, old(State()), echo, base, commit)
    {
      if !joined { return false; }
      if echo && base in outbox && outbox[base] == commit { confirmed := confirmed + {base}; }
      if |hist| != base { return false; }
      gone := ApplyCommit(commit);
    }

    method OnWelcome(commit: History) returns (out: set<Envelope>)
      modifies this
      ensures Effect(State(), out) == Delivery.OnWelcome(cfg, self, old(State()), commit)
    {
      if joined || commit == [] || self !in commit[|commit| - 1].adds { return {}; }
      Enter(commit);
      out := Announce();
    }

    method Enter(commit: History)
      modifies this
      ensures State() == CacheSa(cfg, self, old(State()).(joined := true, hist := commit, joinEpoch := |commit|))
    {
      joined, hist, joinEpoch := true, commit, |commit|;
      CacheCurrentSA();
    }

    method Announce() returns (out: set<Envelope>)
      requires hist != []
      modifies this`peerEpoch
      ensures State() == old(State()).(peerEpoch := Seeded(old(peerEpoch), MembersAt(hist) - {self}, |hist| - 1))
      ensures out == Delivery.EmitHeartbeat(self, old(State()))
    {
      out := EmitHeartbeat();
      SeedMembers(|hist| - 1);
    }

    method SeedMembers(epoch: nat)
      modifies this`peerEpoch
      ensures State() == old(State()).(peerEpoch := Seeded(old(peerEpoch), MembersAt(hist) - {self}, epoch))
    {
      var roster := RosterAt(hist);
      ghost var known := peerEpoch;
      var i := 0;
      while i < |roster|
        invariant 0 <= i <= |roster|
        invariant peerEpoch == Seeded(known, Members(roster[..i]) - {self}, epoch)
      {
        MembersSnoc(roster, i);
        if roster[i].Some? {
          SeedStep(known, Members(roster[..i]) - {self}, roster[i].value, epoch);
          OthersSnoc(Members(roster[..i]), self, roster[i].value);
          if roster[i].value != self && roster[i].value !in peerEpoch {
            peerEpoch := peerEpoch[roster[i].value := epoch];
          }
        }
        i := i + 1;
      }
      assert roster[..i] == roster;
    }

    method OnHeartbeat(src: Actor, base: nat) returns (out: set<Envelope>)
      modifies this
      ensures Effect(State(), out) == Delivery.OnHeartbeat(self, old(State()), src, base)
    {
      out := {};
      if !joined { return; }
      heard := heard + {src};
      if base > Known(peerEpoch, src) || Known(peerEpoch, src) == 0 { peerEpoch := peerEpoch[src := base]; }
      pendingWelcome := pendingWelcome - {src};
      if base > |hist| { out := {LogRequest(self, |hist|)}; }
    }

    method OnLogReply(recs: seq<Record>) returns (gone: bool)
      modifies this
      ensures (if gone then None else Some(State())) == Delivery.OnLogReply(cfg, self, old(State()), recs)
    {
      if !joined { return false; }
      var sorted := SortByBase(recs);
      var i := 0;
      while i < |sorted|
        invariant 0 <= i <= |sorted| && joined
        invariant Replay(cfg, self, State(), sorted[i..]) == Replay(cfg, self, old(State()), sorted)
      {
        assert sorted[i..][0] == sorted[i] && sorted[i..][1..] == sorted[i + 1..];
        if |hist| == sorted[i].base {
          gone := ApplyCommit(sorted[i].commit);
          if gone { return true; }
        }
        i := i + 1;
      }
      gone := false;
    }

    method SendEpoch() returns (least: nat)
      ensures least == Delivery.SendEpoch(cfg, State())
    {
      least := |hist|;
      if !cfg.mbb { return; }
      var left := peerEpoch.Keys;
      while left != {}
        invariant left <= peerEpoch.Keys
        invariant least <= |hist| && (least == |hist| || least in peerEpoch.Values)
        invariant forall a | a in peerEpoch && a !in left :: least <= peerEpoch[a]
        decreases left
      {
        var a :| a in left;
        if peerEpoch[a] < least { least := peerEpoch[a]; }
        left := left - {a};
      }
      LeastIs({|hist|} + peerEpoch.Values, least);
    }

    method SendData(dst: Actor) returns (out: set<Envelope>)
      modifies this`sendSeq
      ensures Effect(State(), out) == Delivery.SendData(cfg, self, old(State()), dst)
    {
      out := {};
      if !joined { return; }
      var e := SendEpoch();
      if e !in sas || dst == self || dst !in MembersAt(hist) { return; }
      var n := if e in sendSeq then sendSeq[e] else 0;
      sendSeq := sendSeq[e := n + 1];
      out := {Data(self, dst, e, if cfg.sharedSpi then sas[e].spi else sas[e].ownSpi, n)};
    }

    method Holds(spi: nat) returns (held: bool)
      ensures held == Held(State(), spi)
    {
      held := false;
      var left := sas.Keys;
      while left != {}
        invariant left <= sas.Keys
        invariant held ==> Held(State(), spi)
        invariant !held ==> forall e | e in sas && e !in left :: !(e >= joinEpoch && e in inSpis && spi in inSpis[e])
        decreases left
      {
        var e :| e in left;
        if e >= joinEpoch && e in inSpis && spi in inSpis[e] { return true; }
        left := left - {e};
      }
    }

    method OnData(base: nat, spi: nat, number: nat) returns (verdict: Verdict)
      modifies this`replay
      ensures verdict == Judge(old(State()), base, spi, number)
      ensures State() == Delivery.OnData(old(State()), base, spi, number)
    {
      if !joined { return Ignored; }
      if base < joinEpoch { return Ignored; }
      var held := Holds(spi);
      if !held { return Lost; }
      var win := new ReplayWindow.ReplayWin();
      if spi in replay { win.high, win.seen := replay[spi].high, replay[spi].seen; }
      var ok := win.Accept(number);
      replay := replay[spi := ReplayWindow.Window(win.high, win.seen)];
      verdict := if ok then Opened else Replayed;
    }
  }

  class DeliveryService {
    var decided: map<nat, History>
    var log: seq<Record>

    function State(): Reflector
      reads this
    {
      Reflector(decided, log)
    }

    constructor ()
      ensures State() == Reflector(map[], [])
    {
      decided, log := map[], [];
    }

    method OnCommit(base: nat, commit: History) returns (out: set<Envelope>)
      modifies this
      ensures Reflection(State(), out) == Order(old(State()), base, commit)
    {
      if base in decided {
        if decided[base] != commit { return {}; }
      }
      decided := decided[base := commit];
      AppendLog(base, commit);
      out := {Commit(true, base, commit)};
    }

    method AppendLog(base: nat, commit: History)
      modifies this`log
      ensures log == Delivery.AppendLog(old(log), base, commit)
    {
      var i := 0;
      while i < |log|
        invariant 0 <= i <= |log| && log == old(log)
        invariant forall j | 0 <= j < i :: log[j].commit != commit
      {
        if log[i].commit == commit { return; }
        i := i + 1;
      }
      log := log + [Record(base, commit)];
    }

    method ServeCatchup(src: Actor, base: nat) returns (out: set<Envelope>)
      ensures out == Serve(State(), src, base)
    {
      var recs := [];
      var i := 0;
      while i < |log|
        invariant 0 <= i <= |log| && recs == From(log[..i], base)
      {
        assert log[..i + 1][..i] == log[..i];
        if log[i].base >= base { recs := recs + [log[i]]; }
        i := i + 1;
      }
      assert log[..i] == log;
      out := {LogReply(src, SortByBase(recs))};
    }
  }

  /** What trimming leaves while the epochs in left are still to be looked at. */
  ghost function Trimming<V>(cfg: Config, n: nat, cached: set<nat>, left: set<nat>, m: map<nat, V>): map<nat, V> {
    map e | e in m && !(e in cached && e !in left && Stale(cfg, n, e)) :: m[e]
  }

  lemma TrimmingStep<V>(cfg: Config, n: nat, cached: set<nat>, left: set<nat>, e: nat, m: map<nat, V>)
    requires e in left && left <= cached
    ensures Trimming(cfg, n, cached, left - {e}, m) ==
            if Stale(cfg, n, e) then Trimming(cfg, n, cached, left, m) - {e} else Trimming(cfg, n, cached, left, m)
  {
  }

  lemma MembersSnoc(r: Roster, i: nat)
    requires i < |r|
    ensures Members(r[..i + 1]) == if r[i].Some? then Members(r[..i]) + {r[i].value} else Members(r[..i])
  {
    var s, t := r[..i + 1], r[..i];
    forall a ensures a in Members(s) <==> a in Members(t) || r[i] == Some(a) {
      if a in Members(t) {
        var j :| 0 <= j < |t| && t[j].Some? && t[j].value == a;
        assert s[j].Some? && s[j].value == a;
      }
      if r[i] == Some(a) { assert s[i].Some? && s[i].value == a; }
    }
  }

  lemma SeedStep(known: map<Actor, nat>, who: set<Actor>, a: Actor, epoch: nat)
    ensures Seeded(known, who + {a}, epoch) ==
            if a in Seeded(known, who, epoch) then Seeded(known, who, epoch) else Seeded(known, who, epoch)[a := epoch]
  {
  }

  lemma NewSnoc(members: set<Actor>, before: set<Actor>, self: Actor, a: Actor)
    ensures members + {a} - before - {self} ==
            if a in before || a == self then members - before - {self} else (members - before - {self}) + {a}
  {
  }

  ghost function Named(adds: seq<Actor>): set<Actor> {
    set a | a in adds
  }

  lemma NamedSnoc(adds: seq<Actor>, i: nat)
    requires i < |adds|
    ensures Named(adds[..i + 1]) == Named(adds[..i]) + {adds[i]}
  {
    assert adds[..i + 1] == adds[..i] + [adds[i]];
  }

  lemma LeastIs(s: set<nat>, x: nat)
    requires x in s && forall y | y in s :: x <= y
    ensures Least(s) == x
  {
  }

  ghost function Pending(waiting: map<Actor, History>, who: set<Actor>, h: History): map<Actor, History> {
    waiting + map a | a in who :: h
  }

  ghost function Invited(sent: set<Envelope>, who: set<Actor>, h: History): set<Envelope> {
    sent + set a | a in who :: Welcome(false, a, h)
  }

  lemma PendingStep(waiting: map<Actor, History>, who: set<Actor>, a: Actor, h: History)
    ensures Pending(waiting, who + {a}, h) == Pending(waiting, who, h)[a := h]
  {
  }

  lemma InvitedStep(sent: set<Envelope>, who: set<Actor>, a: Actor, h: History)
    ensures Invited(sent, who + {a}, h) == Invited(sent, who, h) + {Welcome(false, a, h)}
  {
  }

  lemma OthersSnoc(members: set<Actor>, self: Actor, a: Actor)
    ensures members + {a} - {self} == if a == self then members - {self} else (members - {self}) + {a}
  {
  }
}
