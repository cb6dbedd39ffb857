/**
  The command and response pipes of the cda daemon.  All clients read the same
  response pipe: a client that gets a packet of another one puts it back.
 */
module Pipe {
  import opened Basics

  const MAX_PKT_RETRIES := 200

  /** `serial` numbers the commands; it tells packets of one client apart. */
  datatype Packet = Packet(id: nat, serial: nat, rejects: nat)

  datatype Phase =
    | Idle
    | Waiting(asked: nat, tries: nat)
    | Holding(asked: nat, tries: nat, packet: Packet)

  /** `failed`: some call of this client has failed so far. */
  datatype Client = Client(phase: Phase, failed: bool)

  /** What became of a packet that is in no pipe and no hand any more. */
  datatype Fate = Claimed(client: nat) | Rejected(times: nat) | Overflow(tries: nat) | Broken

  /** A call that reported success: what was asked, what was got, and whether all
      earlier calls of the client had succeeded. */
  datatype Success = Success(client: nat, asked: nat, got: nat, clean: bool)

  datatype State = State(
    clients: seq<Client>, commands: seq<Packet>, daemon: Option<Packet>, responses: seq<Packet>,
    // history: client of each command, responses written, bounces, what became of packets, successes
    owner: seq<nat>, answered: nat, bounces: nat, fates: map<nat, Fate>, log: seq<Success>)

  function Start(n: nat): State {
    State(seq(n, _ => Client(Idle, false)), [], None, [], [], 0, 0, map[], [])
  }

  /** Break is an input or output error in a client's call. */
  datatype Action = Send(c: nat) | Fetch | Reply | Receive(c: nat) | PutBack(c: nat) | Break(c: nat)

  predicate Enabled(s: State, a: Action) {
    match a
    case Send(c) => c < |s.clients| && s.clients[c].phase.Idle?
    case Fetch => s.commands != [] && s.daemon.None?
    case Reply => s.daemon.Some?
    case Receive(c) => c < |s.clients| && s.clients[c].phase.Waiting? && s.responses != []
    case PutBack(c) => c < |s.clients| && s.clients[c].phase.Holding?
    case Break(c) => c < |s.clients| && !s.clients[c].phase.Idle?
  }

  /** Client c from now on. */
  function Now(s: State, c: nat, phase: Phase, fails: bool): seq<Client>
    requires c < |s.clients|
  {
    s.clients[c := Client(phase, s.clients[c].failed || fails)]
  }

  function SendNext(s: State, c: nat): State
    requires Enabled(s, Send(c))
  {
    s.(clients := Now(s, c, Waiting(|s.owner|, 0), false),
       commands := s.commands + [Packet(c, |s.owner|, 0)],
       owner := s.owner + [c])
  }

  function FetchNext(s: State): State
    requires Enabled(s, Fetch)
  {
    s.(commands := s.commands[1..], daemon := Some(s.commands[0]))
  }

  function ReplyNext(s: State): State
    requires Enabled(s, Reply)
  {
    s.(daemon := None, responses := s.responses + [s.daemon.value], answered := s.answered + 1)
  }

  /** The packet is the client's own, or one too many, or goes back. */
  function ReceiveNext(s: State, c: nat): State
    requires Enabled(s, Receive(c))
  {
    var p := s.responses[0];
    var w := s.clients[c].phase;
    var rest := s.(responses := s.responses[1..]);
    if p.id == c then
      rest.(clients := Now(s, c, Idle, false), fates := s.fates[p.serial := Claimed(c)],
            log := s.log + [Success(c, w.asked, p.serial, !s.clients[c].failed)])
    else if w.tries >= MAX_PKT_RETRIES then
      rest.(clients := Now(s, c, Idle, true), fates := s.fates[p.serial := Overflow(w.tries)])
    else
      rest.(clients := Now(s, c, Holding(w.asked, w.tries, p.(rejects := p.rejects + 1)), false),
            bounces := s.bounces + 1)
  }

  function PutBackNext(s: State, c: nat): State
    requires Enabled(s, PutBack(c))
  {
    var h := s.clients[c].phase;
    var t := s.(clients := Now(s, c, Waiting(h.asked, h.tries + 1), false));
    if h.packet.rejects < MAX_PKT_RETRIES then t.(responses := s.responses + [h.packet])
    else t.(fates := s.fates[h.packet.serial := Rejected(h.packet.rejects)])
  }

  /** The call fails, and a packet in hand is lost. */
  function BreakNext(s: State, c: nat): State
    requires Enabled(s, Break(c))
  {
    var h := s.clients[c].phase;
    var t := s.(clients := Now(s, c, Idle, true));
    if h.Holding? then t.(fates := s.fates[h.packet.serial := Broken]) else t
  }

  function Next(s: State, a: Action): State
    requires Enabled(s, a)
  {
    match a
    case Send(c) => SendNext(s, c)
    case Fetch => FetchNext(s)
    case Reply => ReplyNext(s)
    case Receive(c) => ReceiveNext(s, c)
    case PutBack(c) => PutBackNext(s, c)
    case Break(c) => BreakNext(s, c)
  }

  ghost predicate Leads(s: State, actions: seq<Action>, t: State)
    decreases |actions|
  {
    if actions == [] then s == t
    else Enabled(s, actions[0]) && Leads(Next(s, actions[0]), actions[1..], t)
  }

  /** `t` can be reached by n clients. */
  ghost predicate Reachable(n: nat, t: State) {
    exists actions :: Leads(Start(n), actions, t)
  }

  // ---- where the packets are ----

  /** Is `p` the packet of command k: 1 or 0. */
  function Is(p: Packet, k: nat): nat {
    if p.serial == k then 1 else 0
  }

  function InPipe(q: seq<Packet>, k: nat): nat {
    if q == [] then 0 else Is(q[0], k) + InPipe(q[1..], k)
  }

  lemma {:induction false} PipeAppend(q: seq<Packet>, p: Packet, k: nat)
    ensures InPipe(q + [p], k) == InPipe(q, k) + Is(p, k)
    decreases |q|
  {
    if q == [] {
      assert q + [p] == [p] && [p][1..] == [];
    } else {
      PipeAppend(q[1..], p, k);
      assert (q + [p])[1..] == q[1..] + [p];
    }
  }

  lemma {:induction false} PipeHas(q: seq<Packet>, i: nat)
    requires i < |q|
    ensures InPipe(q, q[i].serial) >= 1
    decreases |q|
  {
    if i > 0 {
      PipeHas(q[1..], i - 1);
    }
  }

  function AtDaemon(d: Option<Packet>, k: nat): nat {
    if d.Some? then Is(d.value, k) else 0
  }

  function Held(phase: Phase, k: nat): nat {
    if phase.Holding? then Is(phase.packet, k) else 0
  }

  function InHands(clients: seq<Client>, k: nat): nat {
    if clients == [] then 0 else Held(clients[0].phase, k) + InHands(clients[1..], k)
  }

  lemma {:induction false} HandsUpdate(clients: seq<Client>, c: nat, x: Client, k: nat)
    requires c < |clients|
    ensures InHands(clients[c := x], k) + Held(clients[c].phase, k) == InHands(clients, k) + Held(x.phase, k)
    decreases |clients|
  {
    if c == 0 {
      assert clients[c := x][1..] == clients[1..];
    } else {
      HandsUpdate(clients[1..], c - 1, x, k);
      assert clients[c := x][1..] == clients[1..][c - 1 := x];
    }
  }

  lemma {:induction false} HandsHave(clients: seq<Client>, c: nat)
    requires c < |clients| && clients[c].phase.Holding?
    ensures InHands(clients, clients[c].phase.packet.serial) >= 1
    decreases |clients|
  {
    if c > 0 {
      HandsHave(clients[1..], c - 1);
    }
  }

  /** In how many places the packet of command k is. */
  function Places(s: State, k: nat): nat {
    InPipe(s.commands, k) + AtDaemon(s.daemon, k) + InPipe(s.responses, k) + InHands(s.clients, k)
  }

  /** A command is in exactly one place from when it is sent until its fate is known. */
  predicate ConservedAt(s: State, k: nat) {
    Places(s, k) == if k < |s.owner| && k !in s.fates then 1 else 0
  }

  ghost predicate Conserved(s: State) {
    (forall k: nat :: ConservedAt(s, k)) && forall k :: k in s.fates ==> k < |s.owner|
  }

  lemma {:induction false} StartConserved(n: nat)
    ensures Conserved(Start(n))
  {
    forall k: nat ensures ConservedAt(Start(n), k) {
      NoHands(Start(n).clients, k);
    }
  }

  lemma {:induction false} NoHands(clients: seq<Client>, k: nat)
    requires forall c :: 0 <= c < |clients| ==> clients[c].phase.Idle?
    ensures InHands(clients, k) == 0
    decreases |clients|
  {
    if clients != [] {
      NoHands(clients[1..], k);
    }
  }

  lemma {:induction false} SendConserves(s: State, c: nat, k: nat)
    requires Conserved(s) && Enabled(s, Send(c))
    ensures ConservedAt(SendNext(s, c), k)
  {
    assert ConservedAt(s, k);
    HandsUpdate(s.clients, c, SendNext(s, c).clients[c], k);
    PipeAppend(s.commands, Packet(c, |s.owner|, 0), k);
  }

  lemma {:induction false} FetchConserves(s: State, k: nat)
    requires Conserved(s) && Enabled(s, Fetch)
    ensures ConservedAt(FetchNext(s), k)
  {
    assert ConservedAt(s, k);
  }

  lemma {:induction false} ReplyConserves(s: State, k: nat)
    requires Conserved(s) && Enabled(s, Reply)
    ensures ConservedAt(ReplyNext(s), k)
  {
    assert ConservedAt(s, k);
    PipeAppend(s.responses, s.daemon.value, k);
  }

  lemma {:induction false} ReceiveConserves(s: State, c: nat, k: nat)
    requires Conserved(s) && Enabled(s, Receive(c))
    ensures ConservedAt(ReceiveNext(s, c), k) && s.responses[0].serial < |s.owner|
  {
    var t := ReceiveNext(s, c);
    assert ConservedAt(s, k);
    assert ConservedAt(s, s.responses[0].serial);
    PipeHas(s.responses, 0);
    HandsUpdate(s.clients, c, t.clients[c], k);
  }

  lemma {:induction false} PutBackConserves(s: State, c: nat, k: nat)
    requires Conserved(s) && Enabled(s, PutBack(c))
    ensures ConservedAt(PutBackNext(s, c), k) && s.clients[c].phase.packet.serial < |s.owner|
  {
    var t := PutBackNext(s, c);
    var p := s.clients[c].phase.packet;
    assert ConservedAt(s, k);
    assert ConservedAt(s, p.serial);
    HandsHave(s.clients, c);
    HandsUpdate(s.clients, c, t.clients[c], k);
    PipeAppend(s.responses, p, k);
  }

  lemma {:induction false} BreakConserves(s: State, c: nat, k: nat)
    requires Conserved(s) && Enabled(s, Break(c))
    ensures ConservedAt(BreakNext(s, c), k)
    ensures s.clients[c].phase.Holding? ==> s.clients[c].phase.packet.serial < |s.owner|
  {
    assert ConservedAt(s, k);
    HandsUpdate(s.clients, c, BreakNext(s, c).clients[c], k);
    if s.clients[c].phase.Holding? {
      assert ConservedAt(s, s.clients[c].phase.packet.serial);
      HandsHave(s.clients, c);
    }
  }

  lemma {:induction false} StepConservesAt(s: State, a: Action, k: nat)
    requires Conserved(s) && Enabled(s, a)
    ensures ConservedAt(Next(s, a), k)
    ensures k in Next(s, a).fates ==> k < |Next(s, a).owner|
  {
    match a
    case Send(c) => SendConserves(s, c, k);
    case Fetch => FetchConserves(s, k);
    case Reply => ReplyConserves(s, k);
    case Receive(c) => ReceiveConserves(s, c, k);
    case PutBack(c) => PutBackConserves(s, c, k);
    case Break(c) => BreakConserves(s, c, k);
  }

  lemma {:induction false} StepConserves(s: State, a: Action)
    requires Conserved(s) && Enabled(s, a)
    ensures Conserved(Next(s, a))
  {
    forall k: nat ensures ConservedAt(Next(s, a), k) && (k in Next(s, a).fates ==> k < |Next(s, a).owner|) {
      StepConservesAt(s, a, k);
    }
  }

  // ---- whose packets they are ----

  /** The client's call is about command k. */
  predicate Asks(c: Client, k: nat) {
    !c.phase.Idle? && c.phase.asked == k
  }

  /** A packet on its way belongs to the client with its id; if no call of that
      client has failed, it belongs to the call it is in. */
  predicate Ok(s: State, p: Packet) {
    && p.serial < |s.owner| && s.owner[p.serial] == p.id < |s.clients|
    && p.rejects <= MAX_PKT_RETRIES
    && (s.clients[p.id].failed || Asks(s.clients[p.id], p.serial))
  }

  predicate PacketsOk(s: State) {
    && (forall i :: 0 <= i < |s.commands| ==> Ok(s, s.commands[i]) && s.commands[i].rejects == 0)
    && (s.daemon.Some? ==> Ok(s, s.daemon.value) && s.daemon.value.rejects == 0)
    && (forall i :: 0 <= i < |s.responses| ==> Ok(s, s.responses[i]) && s.responses[i].rejects < MAX_PKT_RETRIES)
  }

  predicate ClientOk(s: State, c: nat)
    requires c < |s.clients|
  {
    var w := s.clients[c].phase;
    && (!w.Idle? ==> w.asked < |s.owner| && s.owner[w.asked] == c && w.tries <= MAX_PKT_RETRIES)
    && (w.Holding? ==> Ok(s, w.packet) && w.packet.id != c && w.tries < MAX_PKT_RETRIES && w.packet.rejects >= 1)
  }

  predicate ClientsOk(s: State) {
    forall c :: 0 <= c < |s.clients| ==> ClientOk(s, c)
  }

  predicate FateOk(s: State, k: nat)
    requires k in s.fates && k < |s.owner|
  {
    match s.fates[k]
    case Claimed(c) => c == s.owner[k]
    case Rejected(times) => times == 200
    case Overflow(tries) => tries == 200
    case Broken => true
  }

  predicate SuccessOk(s: State, e: Success) {
    && e.got < |s.owner| && e.asked < |s.owner| && s.owner[e.got] == s.owner[e.asked] == e.client
    && e.got in s.fates && s.fates[e.got] == Claimed(e.client)
    && (e.clean ==> e.got == e.asked)
  }

  ghost predicate PastOk(s: State) {
    && (forall k :: k in s.fates ==> k < |s.owner| && FateOk(s, k))
    && (forall i :: 0 <= i < |s.log| ==> SuccessOk(s, s.log[i]))
    && (forall i, j :: 0 <= i < j < |s.log| ==> s.log[i].got != s.log[j].got)
  }

  ghost predicate Inv(s: State) {
    Conserved(s) && PacketsOk(s) && ClientsOk(s) && PastOk(s)
  }

  /** A step after which every client that has not failed still asks what it asked. */
  ghost predicate KeepsAsking(s: State, t: State) {
    && |t.clients| == |s.clients| && s.owner <= t.owner
    && forall c :: 0 <= c < |s.clients| ==>
         t.clients[c].failed || (!s.clients[c].failed && forall k :: Asks(s.clients[c], k) ==> Asks(t.clients[c], k))
  }

  lemma {:induction false} StillOk(s: State, t: State)
    requires KeepsAsking(s, t)
    ensures forall p :: Ok(s, p) ==> Ok(t, p)
  {
    forall p | Ok(s, p) ensures Ok(t, p) {
      assert t.clients[p.id].failed || (!s.clients[p.id].failed && Asks(s.clients[p.id], p.serial));
    }
  }

  /** Clients the step does not move. */
  lemma {:induction false} OthersOk(s: State, t: State, c: nat)
    requires KeepsAsking(s, t) && ClientsOk(s) && c < |s.clients| && ClientOk(t, c)
    requires forall i :: 0 <= i < |s.clients| && i != c ==> t.clients[i] == s.clients[i]
    ensures ClientsOk(t)
  {
    StillOk(s, t);
    forall i | 0 <= i < |t.clients| ensures ClientOk(t, i) {
      assert ClientOk(s, i);
    }
  }

  /** A packet somewhere has its command in some place. */
  lemma {:induction false} SomewhereLive(s: State, i: nat)
    ensures i < |s.commands| ==> Places(s, s.commands[i].serial) >= 1
    ensures s.daemon.Some? ==> Places(s, s.daemon.value.serial) >= 1
    ensures i < |s.responses| ==> Places(s, s.responses[i].serial) >= 1
    ensures i < |s.clients| && s.clients[i].phase.Holding? ==> Places(s, s.clients[i].phase.packet.serial) >= 1
  {
    if i < |s.commands| { PipeHas(s.commands, i); }
    if i < |s.responses| { PipeHas(s.responses, i); }
    if i < |s.clients| && s.clients[i].phase.Holding? { HandsHave(s.clients, i); }
  }

  lemma {:induction false} SendKeeps(s: State, c: nat)
    requires Inv(s) && Enabled(s, Send(c))
    ensures Inv(SendNext(s, c))
  {
    var t := SendNext(s, c);
    StepConserves(s, Send(c));
    assert KeepsAsking(s, t);
    StillOk(s, t);
    OthersOk(s, t, c);
    assert Ok(t, Packet(c, |s.owner|, 0));
    PastStays(s, t);
  }

  /** Fates and successes stay in order while nothing is added to them. */
  lemma PastStays(s: State, t: State)
    requires PastOk(s) && s.owner <= t.owner && t.fates == s.fates && t.log == s.log
    ensures PastOk(t)
  {
    forall k | k in t.fates ensures k < |t.owner| && FateOk(t, k) {
      assert FateOk(s, k);
    }
    forall i | 0 <= i < |t.log| ensures SuccessOk(t, t.log[i]) {
      assert SuccessOk(s, s.log[i]);
    }
  }

  /** ... or while a packet gets a fate it did not have, other than being claimed. */
  lemma PastGrows(s: State, t: State, k: nat)
    requires PastOk(s) && t.owner == s.owner && t.log == s.log
    requires k !in s.fates && k < |s.owner| && k in t.fates && t.fates == s.fates[k := t.fates[k]] && FateOk(t, k)
    ensures PastOk(t)
  {
    forall j | j in t.fates ensures j < |t.owner| && FateOk(t, j) {
      if j != k { assert FateOk(s, j); }
    }
    forall i | 0 <= i < |t.log| ensures SuccessOk(t, t.log[i]) {
      assert SuccessOk(s, s.log[i]);
    }
  }

  lemma {:induction false} DaemonKeeps(s: State)
    requires Inv(s)
    ensures Enabled(s, Fetch) ==> Inv(FetchNext(s))
    ensures Enabled(s, Reply) ==> Inv(ReplyNext(s))
  {
    if Enabled(s, Fetch) {
      var t := FetchNext(s);
      StepConserves(s, Fetch);
      assert KeepsAsking(s, t);
      StillOk(s, t);
      if |s.clients| > 0 { assert ClientOk(s, 0); OthersOk(s, t, 0); }
      PastStays(s, t);
    }
    if Enabled(s, Reply) {
      var t := ReplyNext(s);
      StepConserves(s, Reply);
      assert KeepsAsking(s, t);
      StillOk(s, t);
      if |s.clients| > 0 { assert ClientOk(s, 0); OthersOk(s, t, 0); }
      PastStays(s, t);
    }
  }

  lemma {:induction false} PutBackKeeps(s: State, c: nat)
    requires Inv(s) && Enabled(s, PutBack(c))
    ensures Inv(PutBackNext(s, c))
  {
    var t := PutBackNext(s, c);
    StepConserves(s, PutBack(c));
    PutBackConserves(s, c, 0);
    assert ClientOk(s, c);
    assert KeepsAsking(s, t);
    StillOk(s, t);
    OthersOk(s, t, c);
    NotYetFated(s, c);
    var p := s.clients[c].phase.packet;
    if p.rejects < MAX_PKT_RETRIES { PastStays(s, t); } else { PastGrows(s, t, p.serial); }
  }

  /** A packet in hand has no fate yet. */
  lemma {:induction false} NotYetFated(s: State, c: nat)
    requires Conserved(s) && c < |s.clients| && s.clients[c].phase.Holding?
    ensures s.clients[c].phase.packet.serial !in s.fates
  {
    SomewhereLive(s, c);
    assert ConservedAt(s, s.clients[c].phase.packet.serial);
  }

  lemma {:induction false} BreakKeeps(s: State, c: nat)
    requires Inv(s) && Enabled(s, Break(c))
    ensures Inv(BreakNext(s, c))
  {
    var t := BreakNext(s, c);
    StepConserves(s, Break(c));
    BreakConserves(s, c, 0);
    assert KeepsAsking(s, t);
    StillOk(s, t);
    OthersOk(s, t, c);
    if s.clients[c].phase.Holding? {
      NotYetFated(s, c);
      PastGrows(s, t, s.clients[c].phase.packet.serial);
    } else {
      PastStays(s, t);
    }
  }

  lemma {:induction false} BounceKeeps(s: State, c: nat)
    requires Inv(s) && Enabled(s, Receive(c)) && s.responses[0].id != c
    ensures Inv(ReceiveNext(s, c))
  {
    var t := ReceiveNext(s, c);
    StepConserves(s, Receive(c));
    assert ClientOk(s, c) && Ok(s, s.responses[0]);
    assert KeepsAsking(s, t);
    StillOk(s, t);
    OthersOk(s, t, c);
    SomewhereLive(s, 0);
    assert ConservedAt(s, s.responses[0].serial);
    if t.clients[c].phase.Holding? { PastStays(s, t); } else { PastGrows(s, t, s.responses[0].serial); }
  }

  /** Once a client has its packet, no other packet of it is on its way, unless a
      call of it failed before. */
  lemma {:induction false} ClaimedWasLast(s: State, c: nat, p: Packet)
    requires Inv(s) && Enabled(s, Receive(c)) && s.responses[0].id == c
    requires Ok(s, p) && Places(ReceiveNext(s, c), p.serial) >= 1
    ensures Ok(ReceiveNext(s, c), p)
  {
    var t := ReceiveNext(s, c);
    if p.id == c && !s.clients[c].failed {
      StepConservesAt(s, Receive(c), p.serial);
    }
  }

  lemma {:induction false} ClaimKeepsPackets(s: State, c: nat)
    requires Inv(s) && Enabled(s, Receive(c)) && s.responses[0].id == c
    ensures PacketsOk(ReceiveNext(s, c)) && ClientsOk(ReceiveNext(s, c))
  {
    var t := ReceiveNext(s, c);
    forall i | 0 <= i < |t.commands| ensures Ok(t, t.commands[i]) {
      SomewhereLive(t, i);
      ClaimedWasLast(s, c, t.commands[i]);
    }
    if t.daemon.Some? {
      SomewhereLive(t, 0);
      ClaimedWasLast(s, c, t.daemon.value);
    }
    forall i | 0 <= i < |t.responses| ensures Ok(t, t.responses[i]) && t.responses[i].rejects < MAX_PKT_RETRIES {
      SomewhereLive(t, i);
      assert t.responses[i] == s.responses[i + 1];
      ClaimedWasLast(s, c, t.responses[i]);
    }
    forall i | 0 <= i < |t.clients| ensures ClientOk(t, i) {
      SomewhereLive(t, i);
      assert ClientOk(s, i);
      if t.clients[i].phase.Holding? {
        ClaimedWasLast(s, c, t.clients[i].phase.packet);
      }
    }
  }

  lemma {:induction false} ClaimKeepsPast(s: State, c: nat)
    requires Inv(s) && Enabled(s, Receive(c)) && s.responses[0].id == c
    ensures PastOk(ReceiveNext(s, c))
  {
    var t := ReceiveNext(s, c);
    var k := s.responses[0].serial;
    assert ClientOk(s, c) && Ok(s, s.responses[0]);
    SomewhereLive(s, 0);
    assert ConservedAt(s, k);
    forall j | j in t.fates ensures j < |t.owner| && FateOk(t, j) {
      if j != k { assert FateOk(s, j); }
    }
    forall i | 0 <= i < |t.log| ensures SuccessOk(t, t.log[i]) && (i < |s.log| ==> t.log[i].got != k) {
      if i < |s.log| { assert SuccessOk(s, s.log[i]); }
    }
  }

  lemma {:induction false} StepKeepsInv(s: State, a: Action)
    requires Inv(s) && Enabled(s, a)
    ensures Inv(Next(s, a))
  {
    match a
    case Send(c) => SendKeeps(s, c);
    case Fetch => DaemonKeeps(s);
    case Reply => DaemonKeeps(s);
    case Receive(c) =>
      if s.responses[0].id == c {
        StepConserves(s, a);
        ClaimKeepsPackets(s, c);
        ClaimKeepsPast(s, c);
      } else {
        BounceKeeps(s, c);
      }
    case PutBack(c) => PutBackKeeps(s, c);
    case Break(c) => BreakKeeps(s, c);
  }

  lemma {:induction false} RunKeepsInv(s: State, actions: seq<Action>, t: State)
    requires Inv(s) && Leads(s, actions, t)
    ensures Inv(t)
    decreases |actions|
  {
    if actions != [] {
      StepKeepsInv(s, actions[0]);
      RunKeepsInv(Next(s, actions[0]), actions[1..], t);
    }
  }

  lemma {:induction false} ReachableInv(n: nat, t: State)
    requires Reachable(n, t)
    ensures Inv(t)
  {
    var actions :| Leads(Start(n), actions, t);
    StartConserved(n);
    RunKeepsInv(Start(n), actions, t);
  }

  /** A client that reports success got a response to a command of its own, to
      the very command it asked if no earlier call of it failed; and no response
      is ever taken twice. */
  lemma {:induction false} SuccessIsOwn(n: nat, s: State, i: nat)
    requires Reachable(n, s) && i < |s.log|
    ensures var e := s.log[i];
            && e.got < |s.owner| && s.owner[e.got] == e.client
            && (e.clean ==> e.got == e.asked)
    ensures forall j :: 0 <= j < i ==> s.log[j].got != s.log[i].got
  {
    ReachableInv(n, s);
    assert SuccessOk(s, s.log[i]);
  }

  /** Every command is in one place, or its fate is known: taken by its own
      client, dropped after 200 rejections, in the hand of a client that gave up
      after 200 tries, or lost to an error of the pipe. */
  lemma {:induction false} PacketsAreAccountedFor(n: nat, s: State, k: nat)
    requires Reachable(n, s) && k < |s.owner|
    ensures Places(s, k) + (if k in s.fates then 1 else 0) == 1
    ensures k in s.fates ==>
              s.fates[k] in {Claimed(s.owner[k]), Rejected(200), Overflow(200), Broken}
  {
    ReachableInv(n, s);
    assert ConservedAt(s, k);
    if k in s.fates {
      assert FateOk(s, k);
    }
  }
}
