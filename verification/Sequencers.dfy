/** The register, lease store and sequencer objects (ironcore/sequencer/sequencer.go, fencing.go). */
module Sequencers {
  import opened TreeMath
  import opened FencingSpec
  import opened Bytes

  class MemorySequencer {
    var decided: map<seq<byte>, Ref>
    ghost var won: set<(seq<byte>, Ref)>

    /** The register holds exactly the commits ever answered true. */
    ghost predicate Valid()
      reads this
    {
      forall k, c :: (k, c) in won <==> k in decided && decided[k] == c
    }

    constructor ()
      ensures Valid() && won == {}
    {
      decided, won := map[], {};
    }

    method AcceptCommit(g: seq<byte>, epoch: nat, commit: Ref) returns (ok: bool)
      requires Valid()
      modifies this
      ensures Valid()
      ensures (decided, ok) == Decide(old(decided), SeqKey(g, epoch), commit)
      ensures won == old(won) + if ok then {(SeqKey(g, epoch), commit)} else {}
    {
      var key := SeqKey(g, epoch);
      if key in decided { return decided[key] == commit; }
      decided, won := decided[key := commit], won + {(key, commit)};
      ok := true;
    }

    /** The commit that was answered true for the slot, and none before any was. */
    method Decided(g: seq<byte>, epoch: nat) returns (r: Option<Ref>)
      requires Valid()
      ensures forall c :: (SeqKey(g, epoch), c) in won <==> r == Some(c)
    {
      var key := SeqKey(g, epoch);
      if key in decided { r := Some(decided[key]); } else { r := None; }
    }
  }

  class MemoryLeaseStore {
    var held: map<nat, Lease>
    var next: map<nat, nat>

    ghost function State(): Store
      reads this
    {
      Store(held, next)
    }

    constructor ()
      ensures State() == Store(map[], map[])
    {
      held, next := map[], map[];
    }

    method Acquire(vni: nat, owner: string, ttl: int, now: int) returns (l: Option<Lease>)
      modifies this
      ensures Grant(State(), l) == FencingSpec.Acquire(old(State()), vni, owner, ttl, now)
    {
      if vni in held && held[vni].owner != owner && Live(held[vni], now) { return None; }
      next := next[vni := (Lookup(next, vni) + 1) % UINT64];
      var lease := Lease(vni, owner, next[vni], now + ttl);
      held := held[vni := lease];
      l := Some(lease);
    }

    method Renew(vni: nat, owner: string, token: nat, ttl: int, now: int) returns (l: Option<Lease>)
      modifies this
      ensures Grant(State(), l) == FencingSpec.Renew(old(State()), vni, owner, token, ttl, now)
    {
      if vni !in held || held[vni].owner != owner || held[vni].token != token { return None; }
      var cur := held[vni].(expiry := now + ttl);
      held := held[vni := cur];
      l := Some(cur);
    }

    method Release(vni: nat, owner: string, token: nat)
      modifies this
      ensures State() == FencingSpec.Release(old(State()), vni, owner, token)
    {
      if vni in held && held[vni].owner == owner && held[vni].token == token {
        held := held - {vni};
      }
    }
  }

  class FencedRegister {
    var decided: map<seq<byte>, Ref>
    var maxToken: map<nat, nat>

    ghost function State(): Register
      reads this
    {
      Register(decided, maxToken)
    }

    constructor ()
      ensures State() == Register(map[], map[])
    {
      decided, maxToken := map[], map[];
    }

    method Accept(vni: nat, token: nat, g: seq<byte>, epoch: nat, commit: Ref) returns (a: Answer)
      modifies this
      ensures Write(State(), a) == FencingSpec.Accept(old(State()), vni, token, g, epoch, commit)
    {
      if token < Lookup(maxToken, vni) { return Fenced; }
      maxToken := maxToken[vni := token];
      var key := SeqKey(g, epoch);
      if key in decided { return Accepted(decided[key] == commit); }
      decided := decided[key := commit];
      a := Accepted(true);
    }
  }

  datatype Reply = WrongGroup | Standby | Wrote(answer: Answer)

  class FencedSequencer {
    const owner: string
    const vni: nat
    const group: seq<byte>
    const store: MemoryLeaseStore
    const reg: FencedRegister
    const ttl: int
    var lease: Lease
    var held: bool

    constructor (owner: string, vni: nat, group: seq<byte>, store: MemoryLeaseStore, reg: FencedRegister, ttl: int)
      ensures this.owner == owner && this.vni == vni && this.group == group && this.store == store && this.reg == reg
      ensures this.ttl == ttl
      ensures !held
    {
      this.owner, this.vni, this.group, this.store, this.reg, this.ttl := owner, vni, group, store, reg, ttl;
      lease := Lease(0, "", 0, 0);
      held := false;
    }

    ghost function View(): Cached
      reads this
    {
      Cached(owner, vni, group, ttl, if held then Some(lease) else None)
    }

    /** now: this sequencer's clock; storeNow: the store's */
    method AcceptCommit(g: seq<byte>, epoch: nat, commit: Ref, now: int, storeNow: int) returns (r: Reply)
      modifies this, store, reg
      ensures
        var p := Prepare(old(View()), old(store.State()), now, storeNow);
        if g != group then r == WrongGroup && View() == old(View()) && store.State() == old(store.State()) &&
          reg.State() == old(reg.State())
        else
          && View() == p.cached && store.State() == p.store
          && match p.cached.lease
             case None => r == Standby && reg.State() == old(reg.State())
             case Some(l) =>
               var w := Accept(old(reg.State()), vni, l.token, g, epoch, commit);
               r == Wrote(w.answer) && reg.State() == w.register
    {
      if g != group { return WrongGroup; }
      if !held || !Live(lease, now) {
        var l := store.Acquire(vni, owner, ttl, storeNow);
        if l.None? {
          held := false;
          return Standby;
        }
        lease, held := l.value, true;
      }
      var a := reg.Accept(vni, lease.token, g, epoch, commit);
      r := Wrote(a);
    }
  }
}
