/** How often packets bounce, how long a call takes, and which responses get lost. */
module PipeRuns {
  import opened Pipe

  // ---- bounces ----

  /** How often a packet may still be rejected. */
  function Left(p: Packet): nat {
    if p.rejects <= MAX_PKT_RETRIES then MAX_PKT_RETRIES - p.rejects else 0
  }

  function PipeBudget(q: seq<Packet>): nat {
    if q == [] then 0 else Left(q[0]) + PipeBudget(q[1..])
  }

  function HeldBudget(phase: Phase): nat {
    if phase.Holding? then Left(phase.packet) else 0
  }

  function HandBudget(clients: seq<Client>): nat {
    if clients == [] then 0 else HeldBudget(clients[0].phase) + HandBudget(clients[1..])
  }

  predicate WithinBudget(s: State) {
    s.bounces + PipeBudget(s.responses) + HandBudget(s.clients) <= MAX_PKT_RETRIES * s.answered
  }

  lemma {:induction false} BudgetAppend(q: seq<Packet>, p: Packet)
    ensures PipeBudget(q + [p]) == PipeBudget(q) + Left(p)
    decreases |q|
  {
    if q == [] {
      assert q + [p] == [p] && [p][1..] == [];
    } else {
      BudgetAppend(q[1..], p);
      assert (q + [p])[1..] == q[1..] + [p];
    }
  }

  lemma {:induction false} BudgetUpdate(clients: seq<Client>, c: nat, x: Client)
    requires c < |clients|
    ensures HandBudget(clients[c := x]) + HeldBudget(clients[c].phase) == HandBudget(clients) + HeldBudget(x.phase)
    decreases |clients|
  {
    if c == 0 {
      assert clients[c := x][1..] == clients[1..];
    } else {
      BudgetUpdate(clients[1..], c - 1, x);
      assert clients[c := x][1..] == clients[1..][c - 1 := x];
    }
  }

  lemma {:induction false} StepKeepsBudget(s: State, a: Action)
    requires Inv(s) && WithinBudget(s) && Enabled(s, a)
    ensures WithinBudget(Next(s, a))
  {
    var t := Next(s, a);
    match a
    case Send(c) => BudgetUpdate(s.clients, c, t.clients[c]);
    case Fetch =>
    case Reply => BudgetAppend(s.responses, s.daemon.value);
    case Receive(c) => BudgetUpdate(s.clients, c, t.clients[c]);
    case PutBack(c) =>
      BudgetUpdate(s.clients, c, t.clients[c]);
      BudgetAppend(s.responses, s.clients[c].phase.packet);
    case Break(c) => BudgetUpdate(s.clients, c, t.clients[c]);
  }

  lemma {:induction false} RunKeepsBudget(s: State, actions: seq<Action>, t: State)
    requires Inv(s) && WithinBudget(s) && Leads(s, actions, t)
    ensures WithinBudget(t)
    decreases |actions|
  {
    if actions != [] {
      StepKeepsInv(s, actions[0]);
      StepKeepsBudget(s, actions[0]);
      RunKeepsBudget(Next(s, actions[0]), actions[1..], t);
    }
  }

  lemma {:induction false} NoHandBudget(clients: seq<Client>)
    requires forall c :: 0 <= c < |clients| ==> clients[c].phase.Idle?
    ensures HandBudget(clients) == 0
    decreases |clients|
  {
    if clients != [] {
      NoHandBudget(clients[1..]);
    }
  }

  /** Over any interleaving, responses are passed on at most 200 times each. */
  lemma {:induction false} BouncesAreBounded(n: nat, s: State)
    requires Reachable(n, s)
    ensures s.bounces <= 200 * s.answered
  {
    var actions :| Leads(Start(n), actions, s);
    StartConserved(n);
    NoHandBudget(Start(n).clients);
    RunKeepsBudget(Start(n), actions, s);
  }

  // ---- the length of a call ----

  /** Steps a client still needs for its call at most. */
  function StepsLeft(phase: Phase): int {
    match phase
    case Idle => 0
    case Waiting(_, tries) => 2 * (MAX_PKT_RETRIES - tries) + 1
    case Holding(_, tries, _) => 2 * (MAX_PKT_RETRIES - tries)
  }

  /** A step of the client itself, within a call. */
  predicate OwnStep(c: nat, a: Action) {
    a == Receive(c) || a == PutBack(c) || a == Break(c)
  }

  function OwnSteps(c: nat, actions: seq<Action>): nat {
    if actions == [] then 0 else (if OwnStep(c, actions[0]) then 1 else 0) + OwnSteps(c, actions[1..])
  }

  lemma {:induction false} StepOfCall(s: State, a: Action, c: nat)
    requires Inv(s) && Enabled(s, a) && c < |s.clients| && a != Send(c)
    ensures |Next(s, a).clients| == |s.clients|
    ensures StepsLeft(Next(s, a).clients[c].phase)
            <= StepsLeft(s.clients[c].phase) - if OwnStep(c, a) then 1 else 0
  {
    assert ClientOk(s, c);
  }

  lemma {:induction false} StepsOfCall(s: State, actions: seq<Action>, t: State, c: nat)
    requires Inv(s) && Leads(s, actions, t) && c < |s.clients| && Send(c) !in actions
    ensures |t.clients| == |s.clients| && Inv(t)
    ensures OwnSteps(c, actions) + StepsLeft(t.clients[c].phase) <= StepsLeft(s.clients[c].phase)
    decreases |actions|
  {
    if actions != [] {
      StepOfCall(s, actions[0], c);
      StepKeepsInv(s, actions[0]);
      StepsOfCall(Next(s, actions[0]), actions[1..], t, c);
    }
  }

  /** However the clients and the daemon take turns, a client makes at most 401
      steps between two commands of it, and none when it is in no call. */
  lemma {:induction false} CallIsBounded(n: nat, s: State, actions: seq<Action>, t: State, c: nat)
    requires Reachable(n, s) && Leads(s, actions, t) && c < |s.clients| && Send(c) !in actions
    ensures OwnSteps(c, actions) <= if s.clients[c].phase.Idle? then 0 else 401
  {
    ReachableInv(n, s);
    StepsOfCall(s, actions, t, c);
    assert ClientOk(s, c) && ClientOk(t, c);
  }

  // ---- building runs ----

  lemma {:induction false} LeadsOn(s: State, actions: seq<Action>, t: State, a: Action)
    requires Leads(s, actions, t) && Enabled(t, a)
    ensures Leads(s, actions + [a], Next(t, a))
    decreases |actions|
  {
    if actions == [] {
      assert [a][1..] == [] && actions + [a] == [a];
    } else {
      LeadsOn(Next(s, actions[0]), actions[1..], t, a);
      assert (actions + [a])[1..] == actions[1..] + [a];
    }
  }

  lemma {:induction false} Go(n: nat, s: State, a: Action) returns (t: State)
    requires Reachable(n, s) && Enabled(s, a)
    ensures t == Next(s, a) && Reachable(n, t)
  {
    var actions :| Leads(Start(n), actions, s);
    t := Next(s, a);
    LeadsOn(Start(n), actions, s, a);
  }

  lemma StartReachable(n: nat)
    ensures Reachable(n, Start(n))
  {
    assert Leads(Start(n), [], Start(n));
  }

  /** After a call that failed, the next one can get the response to the one before. */
  lemma {:induction false} StaleResponse(n: nat) returns (t: State)
    requires n >= 1
    ensures Reachable(n, t) && t.log == [Success(0, 1, 0, false)]
  {
    StartReachable(n);
    t := Go(n, Start(n), Send(0));
    t := Go(n, t, Break(0));
    t := Go(n, t, Send(0));
    t := Go(n, t, Fetch);
    t := Go(n, t, Reply);
    t := Go(n, t, Receive(0));
  }

  // ---- lost responses ----

  /** Nobody gave up or dropped a response so far. */
  ghost predicate NothingDropped(s: State) {
    forall k :: k in s.fates ==> !s.fates[k].Rejected? && !s.fates[k].Overflow?
  }

  lemma {:induction false} AloneDropsNothing(s: State, actions: seq<Action>, t: State)
    requires Inv(s) && |s.clients| <= 1 && NothingDropped(s) && Leads(s, actions, t)
    ensures NothingDropped(t)
    decreases |actions|
  {
    if actions != [] {
      var a := actions[0];
      StepKeepsInv(s, a);
      match a {
        case Receive(c) => assert Ok(s, s.responses[0]);
        case PutBack(c) => assert ClientOk(s, c);
        case _ =>
      }
      AloneDropsNothing(Next(s, a), actions[1..], t);
    }
  }

  /** Client 1 waits for the response to command 0, which client 0 has rejected
      `tries` times while it waits for command 1. */
  predicate Contended(s: State, tries: nat) {
    && |s.clients| >= 2 && s.responses == [Packet(1, 0, tries)]
    && s.clients[0].phase == Waiting(1, tries) && s.clients[1].phase == Waiting(0, 0)
  }

  lemma {:induction false} OneBounce(n: nat, s: State, tries: nat) returns (t: State)
    requires Reachable(n, s) && Contended(s, tries) && tries < MAX_PKT_RETRIES
    ensures Reachable(n, t) && |t.clients| == |s.clients| >= 2 && t.clients[1] == s.clients[1]
    ensures if tries + 1 < MAX_PKT_RETRIES then Contended(t, tries + 1)
            else 0 in t.fates && t.fates[0] == Rejected(MAX_PKT_RETRIES)
  {
    t := Go(n, s, Receive(0));
    t := Go(n, t, PutBack(0));
  }

  lemma {:induction false} BounceUntilDropped(n: nat, s: State, tries: nat) returns (t: State)
    requires Reachable(n, s) && Contended(s, tries) && tries < MAX_PKT_RETRIES
    ensures Reachable(n, t) && |t.clients| >= 2 && t.clients[1].phase == Waiting(0, 0)
    ensures 0 in t.fates && t.fates[0] == Rejected(MAX_PKT_RETRIES)
    decreases MAX_PKT_RETRIES - tries
  {
    t := OneBounce(n, s, tries);
    if tries + 1 < MAX_PKT_RETRIES {
      t := BounceUntilDropped(n, t, tries + 1);
    }
  }

  /** Two clients are enough: while one waits for the daemon it can reject the
      response of the other so often that it is dropped, and the other still waits. */
  lemma {:induction false} TwoCanDrop(n: nat) returns (t: State)
    requires n >= 2
    ensures Reachable(n, t) && |t.clients| >= 2 && t.clients[1].phase == Waiting(0, 0)
    ensures 0 in t.fates && t.fates[0] == Rejected(MAX_PKT_RETRIES) && Places(t, 0) == 0
  {
    StartReachable(n);
    t := Go(n, Start(n), Send(1));
    t := Go(n, t, Fetch);
    t := Go(n, t, Reply);
    t := Go(n, t, Send(0));
    t := BounceUntilDropped(n, t, 0);
    ReachableInv(n, t);
    assert ConservedAt(t, 0);
  }

  ghost predicate NeverDrops(n: nat) {
    forall s :: Reachable(n, s) ==> NothingDropped(s)
  }

  /** Responses are never dropped for being rejected too often exactly when there
      are not two clients at once. */
  lemma {:induction false} NeverDropsIff(n: nat)
    ensures NeverDrops(n) <==> n <= 1
  {
    if n <= 1 {
      forall s | Reachable(n, s) ensures NothingDropped(s) {
        var actions :| Leads(Start(n), actions, s);
        StartConserved(n);
        AloneDropsNothing(Start(n), actions, s);
      }
    } else {
      var t := TwoCanDrop(n);
      assert !NothingDropped(t);
    }
  }
}
