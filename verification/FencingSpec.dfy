/** The ordering authority: accept-once registers, leases and fencing tokens
    (ironcore/sequencer/sequencer.go, fencing.go).

    Clocks are parameters: every reading is an arbitrary integer unless a lemma says otherwise. */
module FencingSpec {
  import opened TreeMath
  import opened Bytes

  // ---------------------------------------------------------------- keys

  const UINT64: nat := 0x1_0000_0000_0000_0000

  function SeqKey(g: seq<byte>, epoch: nat): seq<byte> {
    BigEndian(epoch, 8) + g
  }

  /** Different (group, epoch) pairs never share a register slot. */
  lemma SeqKeyInjective(g: seq<byte>, e: nat, g': seq<byte>, e': nat)
    requires e < UINT64 && e' < UINT64 && SeqKey(g, e) == SeqKey(g', e')
    ensures g == g' && e == e'
  {
    var k, k' := SeqKey(g, e), SeqKey(g', e');
    assert k[..8] == BigEndian(e, 8) && k'[..8] == BigEndian(e', 8);
    assert k[8..] == g && k'[8..] == g';
    assert Pow256(8) == UINT64 by { assert Pow256(4) == 0x1_0000_0000; }
    BigEndianInjective(e, e', 8);
  }

  // ---------------------------------------------------------------- specification

  type Ref = seq<byte>

  datatype Lease = Lease(vni: nat, owner: string, token: nat, expiry: int)

  predicate Live(l: Lease, now: int) {
    now < l.expiry
  }

  datatype Store = Store(held: map<nat, Lease>, next: map<nat, nat>)

  function Lookup(m: map<nat, nat>, k: nat): nat {
    if k in m then m[k] else 0
  }

  datatype Grant = Grant(store: Store, lease: Option<Lease>)

  /** Acquire: refused while a different owner's lease is live, otherwise mints the next 64-bit token */
  function Acquire(s: Store, vni: nat, owner: string, ttl: int, now: int): Grant {
    if vni in s.held && s.held[vni].owner != owner && Live(s.held[vni], now) then Grant(s, None)
    else
      var token := (Lookup(s.next, vni) + 1) % UINT64;
      var l := Lease(vni, owner, token, now + ttl);
      Grant(Store(s.held[vni := l], s.next[vni := token]), Some(l))
  }

  function Renew(s: Store, vni: nat, owner: string, token: nat, ttl: int, now: int): Grant {
    if vni !in s.held || s.held[vni].owner != owner || s.held[vni].token != token then Grant(s, None)
    else
      var l := s.held[vni].(expiry := now + ttl);
      Grant(s.(held := s.held[vni := l]), Some(l))
  }

  function Release(s: Store, vni: nat, owner: string, token: nat): Store {
    if vni in s.held && s.held[vni].owner == owner && s.held[vni].token == token then s.(held := s.held - {vni}) else s
  }

  datatype Answer = Fenced | Accepted(won: bool)

  datatype Register = Register(decided: map<seq<byte>, Ref>, maxToken: map<nat, nat>)

  datatype Write = Write(register: Register, answer: Answer)

  /** The compare-and-set shared by both registers: first writer wins, same commit again is fine. */
  function Decide(decided: map<seq<byte>, Ref>, key: seq<byte>, commit: Ref): (map<seq<byte>, Ref>, bool) {
    if key in decided then (decided, decided[key] == commit) else (decided[key := commit], true)
  }

  function Accept(r: Register, vni: nat, token: nat, g: seq<byte>, epoch: nat, commit: Ref): Write {
    if token < Lookup(r.maxToken, vni) then Write(r, Fenced)
    else
      var d := Decide(r.decided, SeqKey(g, epoch), commit);
      Write(Register(d.0, r.maxToken[vni := token]), Accepted(d.1))
  }

  // ---------------------------------------------------------------- one sequencer's first half

  /** A sequencer's configuration and cached lease. */
  datatype Cached = Cached(owner: string, vni: nat, group: seq<byte>, ttl: int, lease: Option<Lease>)

  datatype Prepared = Prepared(cached: Cached, store: Store, mint: Option<Lease>)

  /** AcceptCommit up to the register write: reuse the cached lease while it is live, else acquire. */
  function Prepare(c: Cached, s: Store, now: int, storeNow: int): Prepared {
    if c.lease.Some? && Live(c.lease.value, now) then Prepared(c, s, None)
    else
      var g := Acquire(s, c.vni, c.owner, c.ttl, storeNow);
      Prepared(c.(lease := g.lease), g.store, g.lease)
  }
}
