/** In which order commands are answered and responses are read. */
module PipeOrder {
  import opened Pipe

  /** The commands are numbered in the order they were sent, and so many have been
      answered: the daemon has the next one, and the pipe those behind it. */
  predicate Numbered(s: State) {
    var next := s.answered + if s.daemon.Some? then 1 else 0;
    && (s.daemon.Some? ==> s.daemon.value.serial == s.answered)
    && (forall i :: 0 <= i < |s.commands| ==> s.commands[i].serial == next + i)
    && next + |s.commands| == |s.owner|
  }

  lemma {:induction false} RunKeepsNumbers(s: State, actions: seq<Action>, t: State)
    requires Numbered(s) && Leads(s, actions, t)
    ensures Numbered(t)
    decreases |actions|
  {
    if actions != [] {
      RunKeepsNumbers(Next(s, actions[0]), actions[1..], t);
    }
  }

  /** Whatever the clients do, the daemon answers the commands in the order they were
      sent, each once: the response it is about to write is to the command that as many
      were sent before as it has answered. */
  lemma {:induction false} AnswersInOrder(n: nat, s: State)
    requires Reachable(n, s)
    ensures Numbered(s)
  {
    var actions :| Leads(Start(n), actions, s);
    RunKeepsNumbers(Start(n), actions, s);
  }

  /** What a step writes to the response pipe. */
  function PutIn(s: State, a: Action): seq<Packet>
    requires Enabled(s, a)
  {
    match a
    case Reply => [s.daemon.value]
    case PutBack(c) => if s.clients[c].phase.packet.rejects < 200 then [s.clients[c].phase.packet] else []
    case _ => []
  }

  /** What a step reads from it. */
  function TakenOut(s: State, a: Action): seq<Packet>
    requires Enabled(s, a)
  {
    if a.Receive? then [s.responses[0]] else []
  }

  ghost function AllPut(s: State, actions: seq<Action>, t: State): seq<Packet>
    requires Leads(s, actions, t)
    decreases |actions|
  {
    if actions == [] then [] else PutIn(s, actions[0]) + AllPut(Next(s, actions[0]), actions[1..], t)
  }

  ghost function AllTaken(s: State, actions: seq<Action>, t: State): seq<Packet>
    requires Leads(s, actions, t)
    decreases |actions|
  {
    if actions == [] then [] else TakenOut(s, actions[0]) + AllTaken(Next(s, actions[0]), actions[1..], t)
  }

  /** Over any run, packets are read in the order they were written, those put back included:
      what was there and what was written is what was read and what is left. */
  lemma {:induction false} ResponsesInOrder(s: State, actions: seq<Action>, t: State)
    requires Leads(s, actions, t)
    ensures s.responses + AllPut(s, actions, t) == AllTaken(s, actions, t) + t.responses
    decreases |actions|
  {
    if actions != [] {
      var u := Next(s, actions[0]);
      ResponsesInOrder(u, actions[1..], t);
      assert s.responses + PutIn(s, actions[0]) == TakenOut(s, actions[0]) + u.responses;
      Regroup(s.responses, PutIn(s, actions[0]), AllPut(u, actions[1..], t),
              TakenOut(s, actions[0]), u.responses, AllTaken(u, actions[1..], t), t.responses);
    }
  }

  lemma Regroup(a: seq<Packet>, b: seq<Packet>, c: seq<Packet>, d: seq<Packet>, e: seq<Packet>,
                f: seq<Packet>, g: seq<Packet>)
    requires a + b == d + e && e + c == f + g
    ensures a + (b + c) == (d + f) + g
  {
    calc {
      a + (b + c);
      (a + b) + c;
      d + (e + c);
      (d + f) + g;
    }
  }
}
