/** When a call is sure to get the response to the very command it sent. */
module PipeAnswers {
  import opened Pipe
  import opened PipeRuns

  /** A packet of another command of client c than the one it waits for. */
  predicate Other(s: State, c: nat, p: Packet)
    requires c < |s.clients| && !s.clients[c].phase.Idle?
  {
    p.id == c && p.serial != s.clients[c].phase.asked
  }

  /** A packet of an earlier call of the client can still come back: it is in a
      pipe, at the daemon, or in a hand with fewer than 200 rejections. */
  predicate Stale(s: State, c: nat)
    requires c < |s.clients| && !s.clients[c].phase.Idle?
  {
    || (exists i :: 0 <= i < |s.commands| && Other(s, c, s.commands[i]))
    || (s.daemon.Some? && Other(s, c, s.daemon.value))
    || (exists i :: 0 <= i < |s.responses| && Other(s, c, s.responses[i]))
    || (exists d :: 0 <= d < |s.clients| && s.clients[d].phase.Holding? && Other(s, c, s.clients[d].phase.packet)
                    && s.clients[d].phase.packet.rejects < MAX_PKT_RETRIES)
  }

  /** However the run goes on, if the client's call succeeds, it gets the response
      to the command it sent. */
  ghost predicate SureOfOwn(s: State, c: nat) {
    forall actions, t, i ::
      Leads(s, actions, t) && Send(c) !in actions && |s.log| <= i < |t.log| && t.log[i].client == c
      ==> t.log[i].got == t.log[i].asked
  }

  // ---- nothing stale: only the own response can come ----

  /** Of client c only the packet of command k can come back, and if it is still in
      the call, that is the command it waits for. */
  predicate OnlyAsked(s: State, c: nat, k: nat)
    requires c < |s.clients|
  {
    && (!s.clients[c].phase.Idle? ==> s.clients[c].phase.asked == k)
    && (forall i :: 0 <= i < |s.commands| && s.commands[i].id == c ==> s.commands[i].serial == k)
    && (s.daemon.Some? && s.daemon.value.id == c ==> s.daemon.value.serial == k)
    && (forall i :: 0 <= i < |s.responses| && s.responses[i].id == c ==> s.responses[i].serial == k)
    && (forall d :: 0 <= d < |s.clients| && s.clients[d].phase.Holding? && s.clients[d].phase.packet.id == c ==>
          s.clients[d].phase.packet.serial == k || s.clients[d].phase.packet.rejects >= MAX_PKT_RETRIES)
  }

  lemma OnlyAskedStep(s: State, a: Action, c: nat, k: nat)
    requires c < |s.clients| && OnlyAsked(s, c, k) && Enabled(s, a) && a != Send(c)
    ensures |Next(s, a).clients| == |s.clients| && OnlyAsked(Next(s, a), c, k) && s.log <= Next(s, a).log
    ensures forall i :: |s.log| <= i < |Next(s, a).log| && Next(s, a).log[i].client == c ==>
              Next(s, a).log[i].got == Next(s, a).log[i].asked
  {
  }

  lemma {:induction false} OnlyAskedRun(s: State, actions: seq<Action>, t: State, c: nat, k: nat)
    requires c < |s.clients| && OnlyAsked(s, c, k) && Leads(s, actions, t) && Send(c) !in actions
    ensures s.log <= t.log
    ensures forall i :: |s.log| <= i < |t.log| && t.log[i].client == c ==> t.log[i].got == t.log[i].asked
    decreases |actions|
  {
    if actions != [] {
      OnlyAskedStep(s, actions[0], c, k);
      OnlyAskedRun(Next(s, actions[0]), actions[1..], t, c, k);
    }
  }

  // ---- something stale: a run that delivers it ----

  /** From s to t without a new command of client c. */
  ghost predicate Quietly(c: nat, s: State, t: State) {
    exists actions :: Leads(s, actions, t) && Send(c) !in actions
  }

  lemma Stay(c: nat, s: State)
    ensures Quietly(c, s, s)
  {
    assert Leads(s, [], s);
  }

  lemma {:induction false} Take(c: nat, s: State, t: State, a: Action) returns (u: State)
    requires Quietly(c, s, t) && Enabled(t, a) && a != Send(c)
    ensures u == Next(t, a) && Quietly(c, s, u)
  {
    var actions :| Leads(s, actions, t) && Send(c) !in actions;
    LeadsOn(s, actions, t, a);
    u := Next(t, a);
    assert Send(c) !in actions + [a];
  }

  /** The client waits for command k, and a stale packet is at place i of the responses. */
  predicate Queued(t: State, c: nat, k: nat, i: nat) {
    && c < |t.clients| && t.clients[c].phase.Waiting? && t.clients[c].phase.asked == k
    && i < |t.responses| && t.responses[i].id == c && t.responses[i].serial != k
  }

  /** The stale packet is first: the client takes it. */
  lemma {:induction false} TakesStale(c: nat, s: State, t: State, k: nat)
    requires Quietly(c, s, t) && Queued(t, c, k, 0) && s.log <= t.log
    ensures !SureOfOwn(s, c)
  {
    var u := Take(c, s, t, Receive(c));
    var actions :| Leads(s, actions, u) && Send(c) !in actions;
    var i := |t.log|;
    assert |s.log| <= i < |u.log| && u.log[i].client == c && u.log[i].got != u.log[i].asked;
  }

  /** Another client is made to wait for a response. */
  lemma {:induction false} MakeWait(c: nat, s: State, t: State, k: nat, i: nat, d: nat) returns (u: State)
    requires Quietly(c, s, t) && Queued(t, c, k, i) && s.log <= t.log && d != c && d < |t.clients|
    ensures Quietly(c, s, u) && Queued(u, c, k, i) && s.log <= u.log && |u.clients| == |t.clients|
    ensures u.clients[d].phase.Waiting?
  {
    if t.clients[d].phase.Idle? {
      u := Take(c, s, t, Send(d));
    } else if t.clients[d].phase.Holding? {
      u := Take(c, s, t, PutBack(d));
    } else {
      u := t;
    }
  }

  /** Another client receives what is in front of the stale packet. */
  lemma {:induction false} ClearFront(c: nat, s: State, t: State, k: nat, i: nat, d: nat)
    requires Quietly(c, s, t) && Queued(t, c, k, i) && s.log <= t.log && d != c && d < |t.clients|
    ensures !SureOfOwn(s, c)
    decreases i
  {
    if i == 0 {
      TakesStale(c, s, t, k);
    } else {
      var u := MakeWait(c, s, t, k, i, d);
      var v := Take(c, s, u, Receive(d));
      assert v.responses == u.responses[1..] && v.clients[c] == u.clients[c];
      ClearFront(c, s, v, k, i - 1, d);
    }
  }

  /** The stale packet is at the daemon. */
  lemma {:induction false} FromDaemon(c: nat, s: State, t: State, k: nat, d: nat)
    requires Quietly(c, s, t) && s.log <= t.log && d != c && d < |t.clients| && c < |t.clients|
    requires t.clients[c].phase.Waiting? && t.clients[c].phase.asked == k
    requires t.daemon.Some? && t.daemon.value.id == c && t.daemon.value.serial != k
    ensures !SureOfOwn(s, c)
  {
    var u := Take(c, s, t, Reply);
    ClearFront(c, s, u, k, |t.responses|, d);
  }

  /** The stale packet is at place i of the commands. */
  lemma {:induction false} FromCommands(c: nat, s: State, t: State, k: nat, i: nat, d: nat)
    requires Quietly(c, s, t) && s.log <= t.log && d != c && d < |t.clients| && c < |t.clients|
    requires t.clients[c].phase.Waiting? && t.clients[c].phase.asked == k
    requires i < |t.commands| && t.commands[i].id == c && t.commands[i].serial != k
    ensures !SureOfOwn(s, c)
    decreases i
  {
    var u := t;
    if t.daemon.Some? {
      u := Take(c, s, t, Reply);
    }
    var v := Take(c, s, u, Fetch);
    if i == 0 {
      FromDaemon(c, s, v, k, d);
    } else {
      assert v.commands[i - 1] == t.commands[i];
      FromCommands(c, s, v, k, i - 1, d);
    }
  }

  /** With another client, whatever is stale can be made to come first. */
  lemma {:induction false} StaleComes(s: State, c: nat, d: nat)
    requires c < |s.clients| && d < |s.clients| && d != c && s.clients[c].phase.Waiting? && Stale(s, c)
    ensures !SureOfOwn(s, c)
  {
    var k := s.clients[c].phase.asked;
    Stay(c, s);
    if i :| 0 <= i < |s.commands| && Other(s, c, s.commands[i]) {
      FromCommands(c, s, s, k, i, d);
    } else if s.daemon.Some? && Other(s, c, s.daemon.value) {
      FromDaemon(c, s, s, k, d);
    } else if i :| 0 <= i < |s.responses| && Other(s, c, s.responses[i]) {
      ClearFront(c, s, s, k, i, d);
    } else {
      var h :| 0 <= h < |s.clients| && s.clients[h].phase.Holding? && Other(s, c, s.clients[h].phase.packet)
               && s.clients[h].phase.packet.rejects < MAX_PKT_RETRIES;
      var t := Take(c, s, s, PutBack(h));
      ClearFront(c, s, t, k, |s.responses|, d);
    }
  }

  /** A client that holds a packet puts it back first; what is stale stays so. */
  lemma {:induction false} PutBackFirst(s: State, c: nat)
    requires c < |s.clients| && s.clients[c].phase.Holding? && Stale(s, c) && ClientOk(s, c)
    requires !SureOfOwn(Next(s, PutBack(c)), c)
    ensures !SureOfOwn(s, c)
  {
    var t := Next(s, PutBack(c));
    var actions, u, i :| Leads(t, actions, u) && Send(c) !in actions && |t.log| <= i < |u.log|
                         && u.log[i].client == c && u.log[i].got != u.log[i].asked;
    var all := [PutBack(c)] + actions;
    assert all[1..] == actions && Leads(s, all, u) && Send(c) !in all;
    assert t.log == s.log;
  }

  lemma {:induction false} StaleStays(s: State, c: nat)
    requires c < |s.clients| && s.clients[c].phase.Holding? && Stale(s, c) && ClientOk(s, c)
    ensures var t := Next(s, PutBack(c));
            c < |t.clients| && t.clients[c].phase.Waiting? && |t.clients| == |s.clients| && Stale(t, c)
  {
    var t := Next(s, PutBack(c));
    if i :| 0 <= i < |s.responses| && Other(s, c, s.responses[i]) {
      assert t.responses[i] == s.responses[i];
      assert Other(t, c, t.responses[i]);
    } else if i :| 0 <= i < |s.commands| && Other(s, c, s.commands[i]) {
      assert Other(t, c, t.commands[i]);
    } else if !s.daemon.Some? || !Other(s, c, s.daemon.value) {
      var h :| 0 <= h < |s.clients| && s.clients[h].phase.Holding? && Other(s, c, s.clients[h].phase.packet)
               && s.clients[h].phase.packet.rejects < MAX_PKT_RETRIES;
      assert t.clients[h] == s.clients[h] && Other(t, c, t.clients[h].phase.packet);
    }
  }

  // ---- a client alone ----

  /** All packets in the order they will come. */
  function Line(s: State): seq<Packet> {
    s.responses + (if s.daemon.Some? then [s.daemon.value] else []) + s.commands
  }

  /** With one client packets keep their order, and it waits for the last command. */
  predicate InOrder(s: State) {
    && |s.clients| == 1 && !s.clients[0].phase.Holding?
    && (s.clients[0].phase.Waiting? ==> s.clients[0].phase.asked == |s.owner| - 1)
    && (forall i :: 0 <= i < |Line(s)| ==> Line(s)[i].id == 0 && Line(s)[i].serial < |s.owner|)
    && (forall i, j :: 0 <= i < j < |Line(s)| ==> Line(s)[i].serial < Line(s)[j].serial)
  }

  lemma {:induction false} InOrderStep(s: State, a: Action)
    requires InOrder(s) && Enabled(s, a)
    ensures InOrder(Next(s, a))
  {
    var t := Next(s, a);
    match a
    case Send(c) => assert Line(t) == Line(s) + [Packet(c, |s.owner|, 0)];
    case Fetch => assert Line(t) == Line(s);
    case Reply => assert Line(t) == Line(s);
    case Receive(c) =>
      assert Line(s)[0] == s.responses[0];
      assert Line(t) == Line(s)[1..];
    case PutBack(c) =>
    case Break(c) => assert Line(t) == Line(s);
  }

  lemma {:induction false} InOrderRun(s: State, actions: seq<Action>, t: State)
    requires InOrder(s) && Leads(s, actions, t)
    ensures InOrder(t)
    decreases |actions|
  {
    if actions != [] {
      InOrderStep(s, actions[0]);
      InOrderRun(Next(s, actions[0]), actions[1..], t);
    }
  }

  lemma {:induction false} StaleInLine(s: State) returns (i: nat)
    requires InOrder(s) && s.clients[0].phase.Waiting? && Stale(s, 0)
    ensures i < |Line(s)| && Other(s, 0, Line(s)[i])
  {
    var r := |s.responses|;
    var m := if s.daemon.Some? then 1 else 0;
    if j :| 0 <= j < r && Other(s, 0, s.responses[j]) {
      i := j;
    } else if s.daemon.Some? && Other(s, 0, s.daemon.value) {
      i := r;
    } else {
      var j :| 0 <= j < |s.commands| && Other(s, 0, s.commands[j]);
      i := r + m + j;
    }
  }

  /** The first in line is stale, and comes first. */
  lemma {:induction false} StaleComesAlone(s: State)
    requires InOrder(s) && s.clients[0].phase.Waiting? && Stale(s, 0)
    ensures !SureOfOwn(s, 0)
  {
    var k := s.clients[0].phase.asked;
    var i := StaleInLine(s);
    assert Line(s)[0].serial <= Line(s)[i].serial < k;
    Stay(0, s);
    var t := s;
    if s.responses == [] {
      if s.daemon.None? {
        assert Line(s)[0] == s.commands[0];
        t := Take(0, s, t, Fetch);
      } else {
        assert Line(s)[0] == s.daemon.value;
      }
      t := Take(0, s, t, Reply);
      assert t.responses[0] == Line(s)[0];
    } else {
      assert Line(s)[0] == s.responses[0];
    }
    TakesStale(0, s, t, k);
  }

  // ---- the exact condition ----

  lemma {:induction false} WaitingIff(n: nat, s: State, c: nat)
    requires Reachable(n, s) && c < |s.clients| && s.clients[c].phase.Waiting? && Stale(s, c)
    ensures !SureOfOwn(s, c)
  {
    if |s.clients| >= 2 {
      StaleComes(s, c, if c == 0 then 1 else 0);
    } else {
      var actions :| Leads(Start(n), actions, s);
      KeepsCount(Start(n), actions, s);
      assert InOrder(Start(n));
      InOrderRun(Start(n), actions, s);
      StaleComesAlone(s);
    }
  }

  lemma {:induction false} KeepsCount(s: State, actions: seq<Action>, t: State)
    requires Leads(s, actions, t)
    ensures |t.clients| == |s.clients|
    decreases |actions|
  {
    if actions != [] {
      KeepsCount(Next(s, actions[0]), actions[1..], t);
    }
  }

  /** In every reachable state: a call under way is sure to get the response to its
      own command, if it succeeds, exactly when no packet of an earlier call of the
      client can come back. */
  lemma {:induction false} SureOfOwnIff(n: nat, s: State, c: nat)
    requires Reachable(n, s) && c < |s.clients| && !s.clients[c].phase.Idle?
    ensures SureOfOwn(s, c) <==> !Stale(s, c)
  {
    ReachableInv(n, s);
    assert ClientOk(s, c);
    if Stale(s, c) {
      if s.clients[c].phase.Holding? {
        StaleStays(s, c);
        var t := Go(n, s, PutBack(c));
        WaitingIff(n, t, c);
        PutBackFirst(s, c);
      } else {
        WaitingIff(n, s, c);
      }
    } else {
      var k := s.clients[c].phase.asked;
      assert OnlyAsked(s, c, k);
      forall actions, t, i | Leads(s, actions, t) && Send(c) !in actions && |s.log| <= i < |t.log|
                             && t.log[i].client == c
        ensures t.log[i].got == t.log[i].asked
      {
        OnlyAskedRun(s, actions, t, c, k);
      }
    }
  }
}
