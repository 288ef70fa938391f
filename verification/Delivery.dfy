/** One replica channel of the delivery protocol (sim/client.go, sim/ds.go): a committer that
    resends until its reflector echoes, members that catch up from the reflector's log, and a data
    plane that lags behind the slowest known peer. The MLS group is its list of applied commits. */
module Delivery {

  import opened TreeMath
  import ReplayWindow

  type Actor = nat

  const FOUNDER: Actor := 0

  // ---------------------------------------------------------------- the group

  datatype Change = Change(removes: set<Actor>, adds: seq<Actor>, nonce: nat)

  /** The commits applied so far; a commit message carries the history it produces, as a real one
      is bound to its predecessors by the confirmed transcript hash. */
  type History = seq<Change>

  /** Who sits at which leaf. */
  type Roster = seq<Option<Actor>>

  function Blanked(r: Roster, gone: set<Actor>): Roster {
    seq(|r|, i requires 0 <= i < |r| => if r[i].Some? && r[i].value in gone then None else r[i])
  }

  /** The leftmost blank leaf, or a new one at the end. */
  function Seat(r: Roster, a: Actor): Roster {
    if r == [] then [Some(a)]
    else if r[0].None? then [Some(a)] + r[1..]
    else [r[0]] + Seat(r[1..], a)
  }

  function SeatAll(r: Roster, adds: seq<Actor>): Roster {
    if adds == [] then r else Seat(SeatAll(r, adds[..|adds| - 1]), adds[|adds| - 1])
  }

  function RosterAt(h: History): Roster {
    if h == [] then [Some(FOUNDER)]
    else
      var last := h[|h| - 1];
      SeatAll(Blanked(RosterAt(h[..|h| - 1]), last.removes), last.adds)
  }

  function Members(r: Roster): set<Actor> {
    set i | 0 <= i < |r| && r[i].Some? :: r[i].value
  }

  function MembersAt(h: History): set<Actor> {
    Members(RosterAt(h))
  }

  function Leaf(r: Roster, a: Actor): nat {
    if r == [] || r[0] == Some(a) then 0 else 1 + Leaf(r[1..], a)
  }

  function Lowest(r: Roster): Option<Actor> {
    if r == [] then None else if r[0].Some? then r[0] else Lowest(r[1..])
  }

  predicate IsCommitter(h: History, a: Actor) {
    Lowest(RosterAt(h)) == Some(a)
  }

  datatype Handled = Applied(hist: History) | SelfRemoved | Rejected

  function HandleCommit(self: Actor, hist: History, commit: History): Handled {
    if commit == [] || commit[..|commit| - 1] != hist then Rejected
    else if self in commit[|commit| - 1].removes then SelfRemoved
    else Applied(commit)
  }

  // ---------------------------------------------------------------- one member's channel state

  /** The SPI derivations are arbitrary functions of the group state, so nothing below depends on
      SPIs being distinct. */
  datatype Config = Config(overlap: nat, mbb: bool, sharedSpi: bool,
                           groupSpi: History -> nat, senderSpi: (History, nat) -> nat)

  datatype Sa = Sa(spi: nat, ownSpi: nat)

  datatype Channel = Channel(
    joined: bool,
    hist: History,
    joinEpoch: nat,
    sas: map<nat, Sa>,
    inSpis: map<nat, set<nat>>,
    peerEpoch: map<Actor, nat>,
    heard: set<Actor>,
    outbox: map<nat, History>,
    confirmed: set<nat>,
    head: Option<nat>,
    pendingWelcome: map<Actor, History>,
    sendSeq: map<nat, nat>,
    replay: map<nat, ReplayWindow.Window>)

  const Blank := Channel(false, [], 0, map[], map[], map[], {}, map[], {}, None, map[], map[], map[])

  datatype Record = Record(base: nat, commit: History)

  datatype Envelope =
    | Commit(echo: bool, base: nat, commit: History)
    | Welcome(echo: bool, joiner: Actor, commit: History)
    | Heartbeat(src: Actor, base: nat)
    | LogRequest(src: Actor, base: nat)
    | LogReply(dst: Actor, records: seq<Record>)
    | Data(src: Actor, dst: Actor, base: nat, spi: nat, number: nat)

  function Epoch(ch: Channel): nat {
    |ch.hist|
  }

  function SaAt(cfg: Config, h: History, self: Actor): Sa {
    Sa(cfg.groupSpi(h), cfg.senderSpi(h, Leaf(RosterAt(h), self)))
  }

  function SpisAt(cfg: Config, h: History): set<nat> {
    var r := RosterAt(h);
    {cfg.groupSpi(h)} + set i | 0 <= i < |r| && r[i].Some? :: cfg.senderSpi(h, i)
  }

  function EffectiveW(cfg: Config): nat {
    if cfg.mbb then cfg.overlap else 0
  }

  predicate Stale(cfg: Config, epoch: nat, e: nat) {
    epoch >= EffectiveW(cfg) && e < epoch - EffectiveW(cfg)
  }

  function TrimSas(cfg: Config, ch: Channel): Channel {
    ch.(sas := map e | e in ch.sas && !Stale(cfg, Epoch(ch), e) :: ch.sas[e],
        inSpis := map e | e in ch.inSpis && !(e in ch.sas && Stale(cfg, Epoch(ch), e)) :: ch.inSpis[e])
  }

  function CacheSa(cfg: Config, self: Actor, ch: Channel): Channel {
    if !ch.joined then ch
    else TrimSas(cfg, ch.(sas := ch.sas[Epoch(ch) := SaAt(cfg, ch.hist, self)],
                          inSpis := ch.inSpis[Epoch(ch) := SpisAt(cfg, ch.hist)]))
  }

  function Seeded(known: map<Actor, nat>, who: set<Actor>, epoch: nat): map<Actor, nat> {
    known + map a | a in who && a !in known :: epoch
  }

  function SeedNew(self: Actor, ch: Channel, before: set<Actor>): Channel {
    ch.(peerEpoch := Seeded(ch.peerEpoch, MembersAt(ch.hist) - before - {self}, Epoch(ch)))
  }

  function PruneDeparted(ch: Channel): Channel {
    var members := MembersAt(ch.hist);
    ch.(peerEpoch := map a | a in ch.peerEpoch && a in members :: ch.peerEpoch[a],
        heard := ch.heard - (ch.peerEpoch.Keys - members))
  }

  function Found(cfg: Config): Channel {
    CacheSa(cfg, FOUNDER, Blank.(joined := true))
  }

  // ---------------------------------------------------------------- the committer

  predicate CanCommit(self: Actor, ch: Channel) {
    && ch.joined
    && IsCommitter(ch.hist, self)
    && ch.pendingWelcome == map[]
    && (ch.head.Some? ==> ch.head.value in ch.confirmed)
  }

  function RecordHead(ch: Channel, base: nat, commit: History): Channel {
    ch.(outbox := ch.outbox[base := commit], head := Some(base))
  }

  function NewMembers(desired: seq<Actor>, members: set<Actor>, resolvable: set<Actor>): seq<Actor> {
    if desired == [] then []
    else
      var d := desired[|desired| - 1];
      var rest := NewMembers(desired[..|desired| - 1], members, resolvable);
      if d !in members && d in resolvable then rest + [d] else rest
  }

  /** What reconciling toward the desired members would commit: nothing when the committer itself
      is to leave (another leaf is elected) or nothing differs. */
  function Difference(self: Actor, h: History, desired: seq<Actor>, resolvable: set<Actor>,
                      nonce: nat): Option<Change> {
    var members := MembersAt(h);
    var c := Change(members - (set a | a in desired), NewMembers(desired, members, resolvable), nonce);
    if self !in desired || (c.removes == {} && c.adds == []) then None else Some(c)
  }

  datatype Effect = Effect(ch: Channel, out: set<Envelope>)

  function Reconcile(cfg: Config, self: Actor, ch: Channel, desired: seq<Actor>, resolvable: set<Actor>,
                     nonce: nat): Effect {
    if !CanCommit(self, ch) then Effect(ch, {})
    else match Difference(self, ch.hist, desired, resolvable, nonce)
      case None => Effect(ch, {})
      case Some(change) => Issue(cfg, self, ch, change)
  }

  function Issue(cfg: Config, self: Actor, ch: Channel, change: Change): Effect {
    var commit := ch.hist + [change];
    var moved := RecordHead(PruneDeparted(CacheSa(cfg, self, ch.(hist := commit))), Epoch(ch), commit);
    var joiners := set a | a in change.adds;
    Effect(moved.(peerEpoch := Seeded(moved.peerEpoch, joiners - {self}, Epoch(moved)),
                  pendingWelcome := moved.pendingWelcome + map a | a in joiners :: commit),
           {Commit(false, Epoch(ch), commit)} + set a | a in joiners :: Welcome(false, a, commit))
  }

  function Rekey(cfg: Config, self: Actor, ch: Channel, nonce: nat): Effect {
    if !CanCommit(self, ch) then Effect(ch, {})
    else
      var commit := ch.hist + [Change({}, [], nonce)];
      Effect(RecordHead(CacheSa(cfg, self, ch.(hist := commit)), Epoch(ch), commit), {Commit(false, Epoch(ch), commit)})
  }

  function ResendUnacked(self: Actor, ch: Channel): set<Envelope> {
    if !ch.joined || !IsCommitter(ch.hist, self) then {}
    else
      (if ch.head.Some? && ch.head.value !in ch.confirmed && ch.head.value in ch.outbox
       then {Commit(false, ch.head.value, ch.outbox[ch.head.value])} else {})
      + set a | a in ch.pendingWelcome :: Welcome(false, a, ch.pendingWelcome[a])
  }

  function EmitHeartbeat(self: Actor, ch: Channel): set<Envelope> {
    if !ch.joined then {} else {Heartbeat(self, Epoch(ch))} + ResendUnacked(self, ch)
  }

  // ---------------------------------------------------------------- handlers

  function Advance(cfg: Config, self: Actor, ch: Channel, h: History): Channel {
    PruneDeparted(SeedNew(self, CacheSa(cfg, self, ch.(hist := h)), MembersAt(ch.hist)))
  }

  /** One commit at the member's own epoch; None is a member that found itself removed. */
  function Apply(cfg: Config, self: Actor, ch: Channel, commit: History): Option<Channel> {
    match HandleCommit(self, ch.hist, commit)
    case Applied(h) => Some(Advance(cfg, self, ch, h))
    case SelfRemoved => None
    case Rejected => Some(ch)
  }

  function Confirm(ch: Channel, echo: bool, base: nat, commit: History): Channel {
    if echo && base in ch.outbox && ch.outbox[base] == commit then ch.(confirmed := ch.confirmed + {base}) else ch
  }

  function OnCommit(cfg: Config, self: Actor, ch: Channel, echo: bool, base: nat, commit: History): Option<Channel> {
    if !ch.joined then Some(ch)
    else
      var c := Confirm(ch, echo, base, commit);
      if Epoch(c) != base then Some(c) else Apply(cfg, self, c, commit)
  }

  function OnWelcome(cfg: Config, self: Actor, ch: Channel, commit: History): Effect {
    if ch.joined || commit == [] || self !in commit[|commit| - 1].adds then Effect(ch, {})
    else
      var c := CacheSa(cfg, self, ch.(joined := true, hist := commit, joinEpoch := |commit|));
      Effect(c.(peerEpoch := Seeded(c.peerEpoch, MembersAt(commit) - {self}, |commit| - 1)), EmitHeartbeat(self, c))
  }

  function Known(m: map<Actor, nat>, a: Actor): nat {
    if a in m then m[a] else 0
  }

  function OnHeartbeat(self: Actor, ch: Channel, src: Actor, base: nat): Effect {
    if !ch.joined then Effect(ch, {})
    else
      var peers := if base > Known(ch.peerEpoch, src) || Known(ch.peerEpoch, src) == 0
                   then ch.peerEpoch[src := base] else ch.peerEpoch;
      Effect(ch.(heard := ch.heard + {src}, peerEpoch := peers, pendingWelcome := ch.pendingWelcome - {src}),
             if base > Epoch(ch) then {LogRequest(self, Epoch(ch))} else {})
  }

  function InsertByBase(recs: seq<Record>, r: Record): seq<Record> {
    if recs == [] || recs[|recs| - 1].base <= r.base then recs + [r]
    else InsertByBase(recs[..|recs| - 1], r) + [recs[|recs| - 1]]
  }

  /** The stable sort by base. */
  function SortByBase(recs: seq<Record>): seq<Record> {
    if recs == [] then [] else InsertByBase(SortByBase(recs[..|recs| - 1]), recs[|recs| - 1])
  }

  function Replay(cfg: Config, self: Actor, ch: Channel, recs: seq<Record>): Option<Channel>
    decreases |recs|
  {
    if recs == [] then Some(ch)
    else if Epoch(ch) != recs[0].base then Replay(cfg, self, ch, recs[1..])
    else match Apply(cfg, self, ch, recs[0].commit)
      case None => None
      case Some(c) => Replay(cfg, self, c, recs[1..])
  }

  function OnLogReply(cfg: Config, self: Actor, ch: Channel, recs: seq<Record>): Option<Channel> {
    if !ch.joined then Some(ch) else Replay(cfg, self, ch, SortByBase(recs))
  }

  // ---------------------------------------------------------------- the data plane

  function Least(s: set<nat>): (x: nat)
    requires s != {}
    ensures x in s && forall y | y in s :: x <= y
  {
    LeastExists(s);
    var x :| x in s && forall y | y in s :: x <= y;
    x
  }

  lemma {:induction false} LeastExists(s: set<nat>)
    requires s != {}
    ensures exists x :: x in s && forall y | y in s :: x <= y
    decreases s
  {
    var z :| z in s;
    if s - {z} == {} {
      assert s == {z};
    } else {
      LeastExists(s - {z});
      var x :| x in s - {z} && forall y | y in s - {z} :: x <= y;
      var least := if x < z then x else z;
      assert forall y | y in s :: least <= y by {
        forall y | y in s ensures least <= y { if y != z { assert y in s - {z}; } }
      }
    }
  }

  /** The sender lag: no later than any known peer. */
  function SendEpoch(cfg: Config, ch: Channel): nat {
    if cfg.mbb then Least({Epoch(ch)} + ch.peerEpoch.Values) else Epoch(ch)
  }

  /** One packet to one receiver on this replica, if its send epoch's SA is still held. */
  function SendData(cfg: Config, self: Actor, ch: Channel, dst: Actor): Effect {
    var e := SendEpoch(cfg, ch);
    if !ch.joined || dst == self || dst !in MembersAt(ch.hist) || e !in ch.sas then Effect(ch, {})
    else
      var n := if e in ch.sendSeq then ch.sendSeq[e] else 0;
      var spi := if cfg.sharedSpi then ch.sas[e].spi else ch.sas[e].ownSpi;
      Effect(ch.(sendSeq := ch.sendSeq[e := n + 1]), {Data(self, dst, e, spi, n)})
  }

  datatype Verdict = Ignored | Lost | Opened | Replayed

  predicate Held(ch: Channel, spi: nat) {
    exists e :: e in ch.sas && e >= ch.joinEpoch && e in ch.inSpis && spi in ch.inSpis[e]
  }

  function WindowOf(ch: Channel, spi: nat): ReplayWindow.Window {
    if spi in ch.replay then ch.replay[spi] else ReplayWindow.Fresh
  }

  function Judge(ch: Channel, base: nat, spi: nat, number: nat): Verdict {
    if !ch.joined || base < ch.joinEpoch then Ignored
    else if !Held(ch, spi) then Lost
    else if ReplayWindow.Answer(WindowOf(ch, spi), number) then Opened
    else Replayed
  }

  function OnData(ch: Channel, base: nat, spi: nat, number: nat): Channel {
    if Judge(ch, base, spi, number) in {Opened, Replayed}
    then ch.(replay := ch.replay[spi := ReplayWindow.Next(WindowOf(ch, spi), number)])
    else ch
  }

  // ---------------------------------------------------------------- the reflector

  datatype Reflector = Reflector(decided: map<nat, History>, log: seq<Record>)

  function AppendLog(log: seq<Record>, base: nat, commit: History): seq<Record> {
    if exists i :: 0 <= i < |log| && log[i].commit == commit then log else log + [Record(base, commit)]
  }

  datatype Reflection = Reflection(reflector: Reflector, out: set<Envelope>)

  function Order(r: Reflector, base: nat, commit: History): Reflection {
    if base in r.decided && r.decided[base] != commit then Reflection(r, {})
    else Reflection(Reflector(r.decided[base := commit], AppendLog(r.log, base, commit)), {Commit(true, base, commit)})
  }

  function From(log: seq<Record>, base: nat): seq<Record> {
    if log == [] then []
    else
      var rest := From(log[..|log| - 1], base);
      if log[|log| - 1].base >= base then rest + [log[|log| - 1]] else rest
  }

  function Serve(r: Reflector, src: Actor, base: nat): set<Envelope> {
    {LogReply(src, SortByBase(From(r.log, base)))}
  }

  // ---------------------------------------------------------------- the replica as a whole

  datatype Loss = Loss(receiver: Actor, sent: nat, reached: nat)

  datatype Packet = Packet(receiver: Actor, spi: nat, number: nat)

  /** The network is everything ever published: a message may be delivered never, late, out of
      order or again. A client that left, or never subscribed, is not in the map. */
  datatype World = World(clients: map<Actor, Channel>, reflector: Reflector, net: set<Envelope>,
                         losses: seq<Loss>, accepted: seq<Packet>)

  function Start(cfg: Config, joiners: set<Actor>): World {
    World((map a | a in joiners :: Blank)[FOUNDER := Found(cfg)], Reflector(map[], []), {}, [], [])
  }

  /** A partition, a drop or a downed reflector is a delivery step that never comes. */
  datatype Step =
    | ReconcileTimer(c: Actor, desired: seq<Actor>, resolvable: set<Actor>, nonce: nat)
    | RekeyTimer(c: Actor, nonce: nat)
    | HeartbeatTimer(c: Actor)
    | DataTimer(c: Actor, dst: Actor)
    | ToClient(c: Actor, env: Envelope)
    | ToReflector(env: Envelope)

  function With(w: World, c: Actor, e: Effect): World {
    w.(clients := w.clients[c := e.ch], net := w.net + e.out)
  }

  function Put(w: World, c: Actor, ch: Option<Channel>): World {
    w.(clients := if ch.Some? then w.clients[c := ch.value] else w.clients - {c})
  }

  function Receive(cfg: Config, w: World, c: Actor, env: Envelope): World
    requires c in w.clients
  {
    var ch := w.clients[c];
    match env
    case Commit(echo, base, commit) => if echo then Put(w, c, OnCommit(cfg, c, ch, echo, base, commit)) else w
    case Welcome(echo, joiner, commit) => if echo && joiner == c then With(w, c, OnWelcome(cfg, c, ch, commit)) else w
    case Heartbeat(src, base) => if src != c then With(w, c, OnHeartbeat(c, ch, src, base)) else w
    case LogRequest(_, _) => w
    case LogReply(dst, records) => if dst == c then Put(w, c, OnLogReply(cfg, c, ch, records)) else w
    case Data(_, dst, base, spi, number) =>
      if dst != c then w
      else
        var moved := With(w, c, Effect(OnData(ch, base, spi, number), {}));
        match Judge(ch, base, spi, number)
        case Lost => moved.(losses := w.losses + [Loss(c, base, Epoch(ch))])
        case Opened => moved.(accepted := w.accepted + [Packet(c, spi, number)])
        case _ => moved
  }

  function Reflect(w: World, env: Envelope): World {
    match env
    case Commit(false, base, commit) =>
      var r := Order(w.reflector, base, commit);
      w.(reflector := r.reflector, net := w.net + r.out)
    case Welcome(false, joiner, commit) => w.(net := w.net + {Welcome(true, joiner, commit)})
    case LogRequest(src, base) => w.(net := w.net + Serve(w.reflector, src, base))
    case _ => w
  }

  function Next(cfg: Config, w: World, s: Step): World {
    match s
    case ReconcileTimer(c, desired, resolvable, nonce) =>
      if c in w.clients then With(w, c, Reconcile(cfg, c, w.clients[c], desired, resolvable, nonce)) else w
    case RekeyTimer(c, nonce) =>
      if c in w.clients then With(w, c, Rekey(cfg, c, w.clients[c], nonce)) else w
    case HeartbeatTimer(c) =>
      if c in w.clients then w.(net := w.net + EmitHeartbeat(c, w.clients[c])) else w
    case DataTimer(c, dst) =>
      if c in w.clients then With(w, c, SendData(cfg, c, w.clients[c], dst)) else w
    case ToClient(c, env) =>
      if c in w.clients && env in w.net then Receive(cfg, w, c, env) else w
    case ToReflector(env) =>
      if env in w.net then Reflect(w, env) else w
  }

  function After(cfg: Config, w: World, steps: seq<Step>): World {
    if steps == [] then w else Next(cfg, After(cfg, w, steps[..|steps| - 1]), steps[|steps| - 1])
  }

  // ---------------------------------------------------------------- a network without repetition

  /** The same step on a network where a message is gone once anybody has received it. */
  function NextOnce(cfg: Config, w: World, s: Step): World {
    match s
    case ToClient(c, env) =>
      if c in w.clients && env in w.net then Receive(cfg, w.(net := w.net - {env}), c, env) else w
    case ToReflector(env) =>
      if env in w.net then Reflect(w.(net := w.net - {env}), env) else w
    case _ => Next(cfg, w, s)
  }

  function AfterOnce(cfg: Config, w: World, steps: seq<Step>): World {
    if steps == [] then w else NextOnce(cfg, AfterOnce(cfg, w, steps[..|steps| - 1]), steps[|steps| - 1])
  }
}
