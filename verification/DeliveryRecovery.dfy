/** Recovery from loss: whatever a run has lost, and whatever of its messages is still in flight,
    resending, echoes, heartbeats and log replies can bring the replica back to one epoch with a
    committer free to commit, exactly unless a Welcome is outstanding for someone who is gone and of
    whom no heartbeat is in flight. Recovery needs no message twice; the failure no lost one. */
module DeliveryRecovery {

  import opened TreeMath
  import opened Delivery
  import opened DeliveryAgreement

  // ---------------------------------------------------------------- what can happen from a state

  predicate Commits(s: Step) {
    s.ReconcileTimer? || s.RekeyTimer?
  }

  /** No commit is started. */
  predicate Calm(steps: seq<Step>) {
    forall s | s in steps :: !Commits(s)
  }

  /** Without a further commit, on a network that delivers nothing twice. */
  ghost predicate Leads(cfg: Config, w: World, v: World) {
    exists steps: seq<Step> :: Calm(steps) && AfterOnce(cfg, w, steps) == v
  }

  /** On a network that may repeat anything. */
  ghost predicate LeadsAnyhow(cfg: Config, w: World, v: World) {
    exists steps: seq<Step> :: After(cfg, w, steps) == v
  }

  /** By any steps from the start, nothing delivered twice. */
  ghost predicate Reachable(cfg: Config, joiners: set<Actor>, w: World) {
    exists steps: seq<Step> :: AfterOnce(cfg, Start(cfg, joiners), steps) == w
  }

  lemma {:induction false} AfterConcat(cfg: Config, w: World, s: seq<Step>, t: seq<Step>)
    ensures AfterOnce(cfg, w, s + t) == AfterOnce(cfg, AfterOnce(cfg, w, s), t)
  {
    if t == [] {
      assert s + t == s;
    } else {
      var init := t[..|t| - 1];
      assert (s + t)[..|s + t| - 1] == s + init;
      AfterConcat(cfg, w, s, init);
    }
  }

  lemma LeadsSelf(cfg: Config, w: World)
    ensures Leads(cfg, w, w)
  {
    assert AfterOnce(cfg, w, []) == w;
  }

  lemma LeadsThen(cfg: Config, u: World, w: World, v: World)
    requires Leads(cfg, u, w) && Leads(cfg, w, v)
    ensures Leads(cfg, u, v)
  {
    var s: seq<Step> :| Calm(s) && AfterOnce(cfg, u, s) == w;
    var t: seq<Step> :| Calm(t) && AfterOnce(cfg, w, t) == v;
    AfterConcat(cfg, u, s, t);
    assert Calm(s + t);
  }

  lemma AfterOne(cfg: Config, w: World, s: Step)
    ensures AfterOnce(cfg, w, [s]) == NextOnce(cfg, w, s)
  {
    assert [s][..0] == [];
    assert AfterOnce(cfg, w, []) == w;
  }

  lemma LeadsNext(cfg: Config, w: World, s: Step)
    requires !Commits(s)
    ensures Leads(cfg, w, NextOnce(cfg, w, s))
  {
    AfterOne(cfg, w, s);
    assert Calm([s]);
  }

  lemma ReachableNext(cfg: Config, joiners: set<Actor>, w: World, s: Step)
    requires Reachable(cfg, joiners, w)
    ensures Reachable(cfg, joiners, NextOnce(cfg, w, s))
  {
    var t: seq<Step> :| AfterOnce(cfg, Start(cfg, joiners), t) == w;
    AfterConcat(cfg, Start(cfg, joiners), t, [s]);
    AfterOne(cfg, w, s);
  }

  lemma ReachableThen(cfg: Config, joiners: set<Actor>, w: World, v: World)
    requires Reachable(cfg, joiners, w) && Leads(cfg, w, v)
    ensures Reachable(cfg, joiners, v)
  {
    var s: seq<Step> :| AfterOnce(cfg, Start(cfg, joiners), s) == w;
    var t: seq<Step> :| Calm(t) && AfterOnce(cfg, w, t) == v;
    AfterConcat(cfg, Start(cfg, joiners), s, t);
  }

  /** The invariant holds of any part of the network. */
  lemma FewerAgreed(w: World, flight: set<Envelope>)
    requires Agreed(w) && flight <= w.net
    ensures Agreed(w.(net := flight))
  {
  }

  /** Apart from what is no longer in the network, a step does the same. */
  lemma OnceIsNext(cfg: Config, w: World, s: Step)
    ensures var v, u := NextOnce(cfg, w, s), Next(cfg, w, s); v == u.(net := v.net) && v.net <= u.net
  {
    match s
    case ToClient(c, env) =>
      if c in w.clients && env in w.net { LessNet(cfg, w, w.net - {env}, c, env); }
    case ToReflector(env) =>
    case _ =>
  }

  lemma LessNet(cfg: Config, w: World, flight: set<Envelope>, c: Actor, env: Envelope)
    requires c in w.clients && flight <= w.net
    ensures var v, u := Receive(cfg, w.(net := flight), c, env), Receive(cfg, w, c, env);
            v == u.(net := v.net) && v.net <= u.net
  {
  }

  lemma OnceAgreed(cfg: Config, w: World, s: Step)
    requires Agreed(w)
    ensures Agreed(NextOnce(cfg, w, s))
  {
    OnceIsNext(cfg, w, s);
    NextAgreed(cfg, w, s);
    FewerAgreed(Next(cfg, w, s), NextOnce(cfg, w, s).net);
  }

  lemma {:induction false} ReachableAgreed(cfg: Config, joiners: set<Actor>, steps: seq<Step>)
    ensures Agreed(AfterOnce(cfg, Start(cfg, joiners), steps))
  {
    if steps == [] {
      RunAgreed(cfg, joiners, []);
      assert After(cfg, Start(cfg, joiners), []) == Start(cfg, joiners);
    } else {
      ReachableAgreed(cfg, joiners, steps[..|steps| - 1]);
      OnceAgreed(cfg, AfterOnce(cfg, Start(cfg, joiners), steps[..|steps| - 1]), steps[|steps| - 1]);
    }
  }

  /** One more step that starts no commit. */
  lemma Onto(cfg: Config, w: World, s: Step) returns (v: World)
    requires Agreed(w) && !Commits(s)
    ensures v == NextOnce(cfg, w, s) && Agreed(v) && Leads(cfg, w, v)
  {
    v := NextOnce(cfg, w, s);
    LeadsNext(cfg, w, s);
    OnceAgreed(cfg, w, s);
  }

  ghost function Committer(w: World): Channel {
    if FOUNDER in w.clients then w.clients[FOUNDER] else Blank
  }

  /** Heartbeats in flight stay so, but for those of p. */
  ghost predicate BeatsKept(w: World, v: World, p: Actor) {
    forall q: Actor, b: nat :: q != p && Heartbeat(q, b) in w.net ==> Heartbeat(q, b) in v.net
  }

  /** No heartbeats are added but the founder's. */
  ghost predicate NoBeatsAdded(w: World, v: World) {
    forall q: Actor, b: nat :: q != FOUNDER && Heartbeat(q, b) in v.net ==> Heartbeat(q, b) in w.net
  }

  // ---------------------------------------------------------------- the head

  ghost function Head(w: World): nat {
    if All(w) == [] then 0 else |All(w)| - 1
  }

  lemma Resending(cfg: Config, w: World) returns (v: World)
    requires Agreed(w)
    ensures Agreed(v) && Leads(cfg, w, v) && w.net <= v.net && NoBeatsAdded(w, v)
    ensures v.clients == w.clients && v.reflector == w.reflector
    ensures All(w) != [] && Head(w) !in Committer(w).confirmed ==> Commit(false, Head(w), All(w)) in v.net
    ensures forall p | p in Committer(w).pendingWelcome :: Welcome(false, p, All(w)) in v.net
    ensures Heartbeat(FOUNDER, |All(w)|) in v.net
  {
    v := Onto(cfg, w, HeartbeatTimer(FOUNDER));
    OneCommitter(All(w), FOUNDER);
    assert All(w)[..|All(w)|] == All(w);
  }

  lemma Ordering(cfg: Config, w: World) returns (v: World)
    requires Agreed(w) && All(w) != [] && Commit(false, Head(w), All(w)) in w.net
    ensures Agreed(v) && Leads(cfg, w, v) && BeatsKept(w, v, FOUNDER)
    ensures v.clients == w.clients && Commit(true, Head(w), All(w)) in v.net
    ensures |v.reflector.log| == |All(w)|
  {
    v := Onto(cfg, w, ToReflector(Commit(false, Head(w), All(w))));
    var all, log := All(w), w.reflector.log;
    assert all[..|all|] == all;
    forall i | 0 <= i < |log| && i < |all| - 1 ensures log[i].commit != all { assert |log[i].commit| == i + 1; }
    if |log| == |all| { assert log[|all| - 1].commit == all; }
  }

  lemma Echoing(cfg: Config, w: World) returns (v: World)
    requires Agreed(w) && All(w) != [] && Commit(true, Head(w), All(w)) in w.net
    ensures Agreed(v) && Leads(cfg, w, v)
    ensures v.clients == w.clients[FOUNDER := Committer(w).(confirmed := Committer(w).confirmed + {Head(w)})]
    ensures v.reflector == w.reflector
  {
    v := Onto(cfg, w, ToClient(FOUNDER, Commit(true, Head(w), All(w))));
    assert All(w)[..|All(w)|] == All(w);
  }

  /** Resent, ordered and echoed, the head is confirmed and no member has changed otherwise. */
  lemma Confirming(cfg: Config, w: World) returns (v: World)
    requires Agreed(w) && All(w) != []
    ensures Agreed(v) && Leads(cfg, w, v) && |v.reflector.log| == |All(w)|
    ensures v.clients == w.clients[FOUNDER := Committer(w).(confirmed := Committer(w).confirmed + {Head(w)})]
  {
    if Head(w) in Committer(w).confirmed {
      v := w;
      LeadsSelf(cfg, w);
      assert Committer(w).(confirmed := Committer(w).confirmed + {Head(w)}) == Committer(w);
    } else {
      var w1 := Resending(cfg, w);
      var w2 := Ordering(cfg, w1);
      v := Echoing(cfg, w2);
      LeadsThen(cfg, w, w1, w2);
      LeadsThen(cfg, w, w2, v);
    }
  }

  // ---------------------------------------------------------------- outstanding Welcomes

  /** Someone still there, or of whom a heartbeat is in flight. */
  ghost predicate Answerable(w: World, p: Actor) {
    p in w.clients || exists b :: Heartbeat(p, b) in w.net
  }

  /** The committer's commits are as they were and nobody has gone. */
  ghost predicate SameHead(w: World, v: World) {
    && All(v) == All(w) && v.clients.Keys == w.clients.Keys
    && Committer(v).confirmed == Committer(w).confirmed && Committer(v).head == Committer(w).head
    && v.reflector == w.reflector
  }

  lemma Hearing(cfg: Config, w: World, p: Actor, b: nat) returns (v: World)
    requires Agreed(w) && p != FOUNDER && Heartbeat(p, b) in w.net
    ensures Agreed(v) && Leads(cfg, w, v) && SameHead(w, v) && BeatsKept(w, v, p)
    ensures Committer(v).pendingWelcome == Committer(w).pendingWelcome - {p}
  {
    v := Onto(cfg, w, ToClient(FOUNDER, Heartbeat(p, b)));
  }

  lemma Beating(cfg: Config, w: World, p: Actor) returns (v: World)
    requires Agreed(w) && p in w.clients && w.clients[p].joined
    ensures Agreed(v) && Leads(cfg, w, v) && SameHead(w, v) && w.net <= v.net
    ensures v.clients == w.clients && Heartbeat(p, Epoch(w.clients[p])) in v.net
  {
    v := Onto(cfg, w, HeartbeatTimer(p));
  }

  lemma Inviting(cfg: Config, w: World, p: Actor) returns (v: World)
    requires Agreed(w) && Welcome(false, p, All(w)) in w.net
    ensures Agreed(v) && Leads(cfg, w, v) && SameHead(w, v) && BeatsKept(w, v, p)
    ensures v.clients == w.clients && Welcome(true, p, All(w)) in v.net
  {
    v := Onto(cfg, w, ToReflector(Welcome(false, p, All(w))));
  }

  lemma Joining(cfg: Config, w: World, p: Actor) returns (v: World)
    requires Agreed(w) && Welcome(true, p, All(w)) in w.net && p in w.clients && !w.clients[p].joined
    ensures Agreed(v) && Leads(cfg, w, v) && SameHead(w, v) && BeatsKept(w, v, p)
    ensures Committer(v) == Committer(w) && Heartbeat(p, |All(w)|) in v.net
  {
    v := Onto(cfg, w, ToClient(p, Welcome(true, p, All(w))));
    assert EnvelopeOk(w.clients, All(w), |w.reflector.log|, Welcome(true, p, All(w)));
    Joined(cfg, p, w.clients[p], All(w));
  }

  lemma Welcoming(cfg: Config, w: World, p: Actor) returns (v: World)
    requires Agreed(w) && p in Committer(w).pendingWelcome && Answerable(w, p)
    ensures Agreed(v) && Leads(cfg, w, v) && SameHead(w, v) && BeatsKept(w, v, p)
    ensures Committer(v).pendingWelcome == Committer(w).pendingWelcome - {p}
  {
    PendingNotFounder(w, p);
    if p !in w.clients {
      var b :| Heartbeat(p, b) in w.net;
      v := Hearing(cfg, w, p, b);
    } else if w.clients[p].joined {
      var w1 := Beating(cfg, w, p);
      v := Hearing(cfg, w1, p, Epoch(w.clients[p]));
      LeadsThen(cfg, w, w1, v);
    } else {
      v := FirstWelcome(cfg, w, p);
    }
  }

  lemma FirstWelcome(cfg: Config, w: World, p: Actor) returns (v: World)
    requires Agreed(w) && p in Committer(w).pendingWelcome && p != FOUNDER && p in w.clients && !w.clients[p].joined
    ensures Agreed(v) && Leads(cfg, w, v) && SameHead(w, v) && BeatsKept(w, v, p)
    ensures Committer(v).pendingWelcome == Committer(w).pendingWelcome - {p}
  {
    var w1 := Resending(cfg, w);
    var w2 := Inviting(cfg, w1, p);
    var w3 := Joining(cfg, w2, p);
    v := Hearing(cfg, w3, p, |All(w)|);
    LeadsThen(cfg, w, w1, w2);
    LeadsThen(cfg, w, w2, w3);
    LeadsThen(cfg, w, w3, v);
  }

  lemma PendingNotFounder(w: World, p: Actor)
    requires Agreed(w) && p in Committer(w).pendingWelcome
    ensures p != FOUNDER
  {
  }

  lemma {:induction false} AllWelcomed(cfg: Config, w: World) returns (v: World)
    requires Agreed(w) && forall p | p in Committer(w).pendingWelcome :: Answerable(w, p)
    ensures Agreed(v) && Leads(cfg, w, v) && SameHead(w, v) && Committer(v).pendingWelcome == map[]
    decreases Committer(w).pendingWelcome.Keys
  {
    var pending := Committer(w).pendingWelcome;
    if pending == map[] {
      v := w;
      LeadsSelf(cfg, w);
    } else {
      assert pending.Keys != {};
      var p :| p in pending;
      var w1 := Welcoming(cfg, w, p);
      assert Committer(w1).pendingWelcome.Keys == pending.Keys - {p};
      forall q | q in Committer(w1).pendingWelcome ensures Answerable(w1, q) { StillAnswerable(w, w1, p, q); }
      v := AllWelcomed(cfg, w1);
      LeadsThen(cfg, w, w1, v);
    }
  }

  lemma StillAnswerable(w: World, v: World, p: Actor, q: Actor)
    requires Answerable(w, q) && q != p && BeatsKept(w, v, p) && v.clients.Keys == w.clients.Keys
    ensures Answerable(v, q)
  {
    if q in w.clients {
      assert q in v.clients.Keys;
    } else {
      var b :| Heartbeat(q, b) in w.net;
      assert Heartbeat(q, b) in v.net;
    }
  }

  // ---------------------------------------------------------------- members behind

  ghost function Behind(w: World): set<Actor> {
    set a | a in w.clients && w.clients[a].joined && w.clients[a].hist != All(w)
  }

  /** The committer as it was, everyone but a as they were. */
  ghost predicate SameBut(w: World, v: World, a: Actor) {
    && v.reflector == w.reflector && FOUNDER != a && FOUNDER in v.clients
    && (forall b | b != a :: (b in v.clients <==> b in w.clients) && (b in v.clients ==> v.clients[b] == w.clients[b]))
  }

  lemma Learning(cfg: Config, w: World, a: Actor) returns (v: World)
    requires Agreed(w) && a in Behind(w) && Heartbeat(FOUNDER, |All(w)|) in w.net
    ensures Agreed(v) && Leads(cfg, w, v) && SameBut(w, v, a) && NoBeatsAdded(w, v)
    ensures a in v.clients && v.clients[a] == OnHeartbeat(a, w.clients[a], FOUNDER, |All(w)|).ch
    ensures v.clients[a].joined && v.clients[a].hist == w.clients[a].hist
    ensures LogRequest(a, Epoch(w.clients[a])) in v.net && Epoch(w.clients[a]) < |All(w)|
  {
    v := Onto(cfg, w, ToClient(a, Heartbeat(FOUNDER, |All(w)|)));
    assert MemberOk(All(w), a, w.clients[a]);
  }

  lemma Serving(cfg: Config, w: World, a: Actor, base: nat) returns (v: World)
    requires Agreed(w) && LogRequest(a, base) in w.net && base < |w.reflector.log|
    ensures Agreed(v) && Leads(cfg, w, v) && NoBeatsAdded(w, v)
    ensures v.clients == w.clients && v.reflector == w.reflector && LogReply(a, w.reflector.log[base..]) in v.net
  {
    v := Onto(cfg, w, ToReflector(LogRequest(a, base)));
    ServedIsSuffix(All(w), w.reflector, a, base);
  }

  lemma CatchingUp(cfg: Config, w: World, a: Actor, base: nat) returns (v: World)
    requires Agreed(w) && a in w.clients && w.clients[a].joined && a != FOUNDER
    requires base < |w.reflector.log| == |All(w)| && LogReply(a, w.reflector.log[base..]) in w.net
    ensures Agreed(v) && Leads(cfg, w, v) && SameBut(w, v, a) && NoBeatsAdded(w, v)
    ensures a in v.clients ==> v.clients[a].joined && v.clients[a].hist == All(w)
    ensures match OnLogReply(cfg, a, w.clients[a], w.reflector.log[base..])
            case None => a !in v.clients
            case Some(after) => a in v.clients && v.clients[a] == after
  {
    var recs := w.reflector.log[base..];
    v := Onto(cfg, w, ToClient(a, LogReply(a, recs)));
    assert v == Put(w.(net := w.net - {LogReply(a, recs)}), a, OnLogReply(cfg, a, w.clients[a], recs));
    PastTheLog(cfg, w, a, base);
    if a in v.clients { AtTheEnd(v, a); }
  }

  lemma PastTheLog(cfg: Config, w: World, a: Actor, base: nat)
    requires Agreed(w) && a in w.clients && a != FOUNDER
    requires base < |w.reflector.log| && LogReply(a, w.reflector.log[base..]) in w.net
    ensures match OnLogReply(cfg, a, w.clients[a], w.reflector.log[base..])
            case None => true
            case Some(after) => after.joined && Epoch(after) >= |w.reflector.log|
  {
    var log := w.reflector.log;
    var recs, last := log[base..], log[|log| - 1];
    assert recs[|recs| - 1] == last && last.base == |log| - 1;
    ReplyCatchesUp(cfg, w, a, recs, last);
  }

  lemma AtTheEnd(w: World, a: Actor)
    requires Agreed(w) && a in w.clients && w.clients[a].joined && Epoch(w.clients[a]) >= |All(w)|
    ensures w.clients[a].hist == All(w)
  {
    assert MemberOk(All(w), a, w.clients[a]);
  }

  /** A member behind is brought to the committer's epoch, or leaves on learning of its removal. */
  lemma Bringing(cfg: Config, w: World, a: Actor) returns (v: World)
    requires Agreed(w) && |w.reflector.log| == |All(w)| && a in Behind(w)
    ensures Agreed(v) && Leads(cfg, w, v) && SameBut(w, v, a) && NoBeatsAdded(w, v)
    ensures a in v.clients ==> v.clients[a].joined && v.clients[a].hist == All(w)
  {
    var w1 := Resending(cfg, w);
    var w2 := Learning(cfg, w1, a);
    var w3 := Serving(cfg, w2, a, Epoch(w.clients[a]));
    v := CatchingUp(cfg, w3, a, Epoch(w.clients[a]));
    LeadsThen(cfg, w, w1, w2);
    LeadsThen(cfg, w, w2, w3);
    LeadsThen(cfg, w, w3, v);
  }

  lemma {:induction false} AllBrought(cfg: Config, w: World) returns (v: World)
    requires Agreed(w) && |w.reflector.log| == |All(w)|
    ensures Agreed(v) && Leads(cfg, w, v) && Behind(v) == {}
    ensures Committer(v) == Committer(w) && All(v) == All(w)
    decreases Behind(w)
  {
    if Behind(w) == {} {
      v := w;
      LeadsSelf(cfg, w);
    } else {
      var a :| a in Behind(w);
      var w1 := Bringing(cfg, w, a);
      assert Behind(w1) <= Behind(w) - {a};
      v := AllBrought(cfg, w1);
      LeadsThen(cfg, w, w1, v);
    }
  }

  // ---------------------------------------------------------------- the result

  ghost predicate Healed(v: World) {
    && FOUNDER in v.clients && CanCommit(FOUNDER, v.clients[FOUNDER])
    && forall a | a in v.clients && v.clients[a].joined :: v.clients[a].hist == v.clients[FOUNDER].hist
  }

  lemma Healing(cfg: Config, w: World) returns (v: World)
    requires Agreed(w) && forall p | p in Committer(w).pendingWelcome :: Answerable(w, p)
    ensures Leads(cfg, w, v) && Healed(v) && v.clients[FOUNDER].hist == Committer(w).hist
  {
    var w1 := AllWelcomed(cfg, w);
    var w2 := w1;
    LeadsSelf(cfg, w1);
    if All(w1) != [] { w2 := Confirming(cfg, w1); }
    v := AllBrought(cfg, w2);
    LeadsThen(cfg, w, w1, w2);
    LeadsThen(cfg, w, w2, v);
    OneCommitter(All(v), FOUNDER);
    forall a | a in v.clients && v.clients[a].joined ensures v.clients[a].hist == All(v) {
      assert a !in Behind(v);
    }
  }

  // ---------------------------------------------------------------- and when it cannot happen

  /** A Welcome waits for someone gone who will never be heard from. */
  ghost predicate Stuck(w: World, p: Actor) {
    && FOUNDER in w.clients && p in w.clients[FOUNDER].pendingWelcome
    && p !in w.clients && forall b :: Heartbeat(p, b) !in w.net
  }

  lemma StuckNext(cfg: Config, w: World, p: Actor, s: Step)
    requires Agreed(w) && Stuck(w, p)
    ensures Stuck(Next(cfg, w, s), p)
  {
    StuckFounder(cfg, w, p, s);
    StuckQuiet(cfg, w, p, s);
  }

  lemma StuckQuiet(cfg: Config, w: World, p: Actor, s: Step)
    requires Stuck(w, p)
    ensures p !in Next(cfg, w, s).clients && forall b :: Heartbeat(p, b) !in Next(cfg, w, s).net
  {
    if s.ToClient? && s.c in w.clients && s.env in w.net { QuietReceive(cfg, w, p, s.c, s.env); }
    if s.ReconcileTimer? && s.c in w.clients {
      QuietCommit(cfg, s.c, w.clients[s.c], s.desired, s.resolvable, s.nonce);
    }
  }

  lemma QuietCommit(cfg: Config, c: Actor, ch: Channel, desired: seq<Actor>, resolvable: set<Actor>, nonce: nat)
    ensures forall env | env in Reconcile(cfg, c, ch, desired, resolvable, nonce).out :: !env.Heartbeat?
  {
  }

  lemma QuietReceive(cfg: Config, w: World, p: Actor, c: Actor, env: Envelope)
    requires p !in w.clients && c in w.clients
    ensures p !in Receive(cfg, w, c, env).clients
    ensures forall b :: Heartbeat(p, b) in Receive(cfg, w, c, env).net ==> Heartbeat(p, b) in w.net
  {
  }

  lemma StuckFounder(cfg: Config, w: World, p: Actor, s: Step)
    requires Agreed(w) && Stuck(w, p)
    ensures var v := Next(cfg, w, s); FOUNDER in v.clients && p in v.clients[FOUNDER].pendingWelcome
  {
    if s.ToClient? && s.c == FOUNDER && s.env in w.net {
      StuckReceive(cfg, w, p, s.env);
    } else if s.ToClient? && s.c in w.clients && s.env in w.net {
      OthersAlone(cfg, w, s.c, s.env);
    }
  }

  lemma OthersAlone(cfg: Config, w: World, c: Actor, env: Envelope)
    requires c in w.clients && c != FOUNDER && FOUNDER in w.clients
    ensures FOUNDER in Receive(cfg, w, c, env).clients && Receive(cfg, w, c, env).clients[FOUNDER] == w.clients[FOUNDER]
  {
  }

  lemma StuckReceive(cfg: Config, w: World, p: Actor, env: Envelope)
    requires Agreed(w) && Stuck(w, p) && env in w.net
    ensures var v := Receive(cfg, w, FOUNDER, env); FOUNDER in v.clients && p in v.clients[FOUNDER].pendingWelcome
  {
    assert EnvelopeOk(w.clients, All(w), |w.reflector.log|, env);
    match env
    case Commit(true, base, commit) => StuckCommit(cfg, w, base, commit);
    case LogReply(dst, recs) => if dst == FOUNDER { StuckReply(cfg, w, recs); }
    case _ =>
  }

  lemma StuckCommit(cfg: Config, w: World, base: nat, commit: History)
    requires Agreed(w) && base < |All(w)|
    ensures OnCommit(cfg, FOUNDER, w.clients[FOUNDER], true, base, commit) ==
            Some(Confirm(w.clients[FOUNDER], true, base, commit))
  {
  }

  lemma StuckReply(cfg: Config, w: World, recs: seq<Record>)
    requires Agreed(w) && EnvelopeOk(w.clients, All(w), |w.reflector.log|, LogReply(FOUNDER, recs))
    ensures OnLogReply(cfg, FOUNDER, w.clients[FOUNDER], recs) == Some(w.clients[FOUNDER])
  {
    SortedAlready(recs);
    if recs != [] { FounderIgnores(cfg, w, recs); }
  }

  lemma {:induction false} StuckForever(cfg: Config, w: World, p: Actor, steps: seq<Step>)
    requires Agreed(w) && Stuck(w, p)
    ensures Agreed(After(cfg, w, steps)) && Stuck(After(cfg, w, steps), p)
  {
    if steps != [] {
      StuckForever(cfg, w, p, steps[..|steps| - 1]);
      NextAgreed(cfg, After(cfg, w, steps[..|steps| - 1]), steps[|steps| - 1]);
      StuckNext(cfg, After(cfg, w, steps[..|steps| - 1]), p, steps[|steps| - 1]);
    }
  }

  lemma NeverHealed(cfg: Config, w: World, v: World, p: Actor)
    requires Agreed(w) && Stuck(w, p) && LeadsAnyhow(cfg, w, v)
    ensures !Healed(v)
  {
    var steps: seq<Step> :| After(cfg, w, steps) == v;
    StuckForever(cfg, w, p, steps);
  }

  // ---------------------------------------------------------------- with and without repetition

  /** The same clients and reflector, with at least the same in flight. */
  ghost predicate Shadows(v: World, w: World) {
    v.clients == w.clients && v.reflector == w.reflector && w.net <= v.net
  }

  lemma ShadowReceive(cfg: Config, w: World, v: World, c: Actor, env: Envelope)
    requires c in w.clients && Shadows(v, w)
    ensures Shadows(Receive(cfg, v, c, env), Receive(cfg, w, c, env))
  {
  }

  lemma ShadowNext(cfg: Config, w: World, v: World, s: Step)
    requires Shadows(v, w)
    ensures Shadows(Next(cfg, v, s), NextOnce(cfg, w, s)) || Shadows(v, NextOnce(cfg, w, s))
  {
    match s
    case ToClient(c, env) =>
      if c in w.clients && env in w.net { ShadowReceive(cfg, w.(net := w.net - {env}), v, c, env); }
    case ToReflector(env) =>
      if env in w.net { assert Shadows(Reflect(v, env), Reflect(w.(net := w.net - {env}), env)); }
    case _ =>
  }

  /** What can happen without repetition can happen with it. */
  lemma {:induction false} OnceAnyhow(cfg: Config, w: World, steps: seq<Step>) returns (t: seq<Step>)
    ensures Shadows(After(cfg, w, t), AfterOnce(cfg, w, steps)) && (Calm(steps) ==> Calm(t))
  {
    if steps == [] {
      t := [];
    } else {
      var init, s := steps[..|steps| - 1], steps[|steps| - 1];
      t := OnceAnyhow(cfg, w, init);
      ShadowNext(cfg, AfterOnce(cfg, w, init), After(cfg, w, t), s);
      if !Shadows(After(cfg, w, t), AfterOnce(cfg, w, steps)) {
        assert (t + [s])[..|t + [s]| - 1] == t;
        assert s in steps && forall x | x in init :: x in steps;
        t := t + [s];
      }
    }
  }

  lemma HealsAnyhow(cfg: Config, w: World, v: World)
    requires Leads(cfg, w, v) && Healed(v)
    ensures exists u :: LeadsAnyhow(cfg, w, u) && Healed(u)
  {
    var steps: seq<Step> :| Calm(steps) && AfterOnce(cfg, w, steps) == v;
    var t := OnceAnyhow(cfg, w, steps);
    assert LeadsAnyhow(cfg, w, After(cfg, w, t));
  }

  /** Everyone with an outstanding Welcome is still there or has a heartbeat in flight. */
  ghost predicate AllAnswerable(w: World) {
    forall p | p in Committer(w).pendingWelcome :: Answerable(w, p)
  }

  /** Take any run, and let any part of what it published still be in flight and the rest be lost. From
      there the replica can come to a state where the committer is free and every member is at its
      epoch if and only if everyone with an outstanding Welcome is still there or has a heartbeat in
      flight: then without a further commit and without repeating a message, else by no means. */
  lemma RecoversIff(cfg: Config, joiners: set<Actor>, steps: seq<Step>, flight: set<Envelope>)
    requires flight <= After(cfg, Start(cfg, joiners), steps).net
    ensures var w := After(cfg, Start(cfg, joiners), steps).(net := flight);
            && ((exists v :: Leads(cfg, w, v) && Healed(v)) <==> AllAnswerable(w))
            && ((exists v :: LeadsAnyhow(cfg, w, v) && Healed(v)) <==> AllAnswerable(w))
  {
    RunAgreed(cfg, joiners, steps);
    FewerAgreed(After(cfg, Start(cfg, joiners), steps), flight);
    HealsIff(cfg, After(cfg, Start(cfg, joiners), steps).(net := flight));
  }

  lemma HealsIff(cfg: Config, w: World)
    requires Agreed(w)
    ensures (exists v :: Leads(cfg, w, v) && Healed(v)) <==> AllAnswerable(w)
    ensures (exists v :: LeadsAnyhow(cfg, w, v) && Healed(v)) <==> AllAnswerable(w)
  {
    if AllAnswerable(w) {
      var v := Healing(cfg, w);
      HealsAnyhow(cfg, w, v);
    } else {
      var p :| p in Committer(w).pendingWelcome && !Answerable(w, p);
      forall v | LeadsAnyhow(cfg, w, v) ensures !Healed(v) { NeverHealed(cfg, w, v, p); }
      forall v | Leads(cfg, w, v) ensures !Healed(v) { if Healed(v) { HealsAnyhow(cfg, w, v); } }
    }
  }
}
