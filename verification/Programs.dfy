/** The system runs the two programs: seen from the server a run of the system is a run of
    the receive loop, seen from a client it is a run of the nested loops. What is proved
    about the loops therefore holds inside the system. */
module Programs {
  import opened CInt
  import opened Wrappers
  import opened Messages
  import opened Sums
  import opened Protocol
  import opened Invariant
  import opened Safety
  import InvariantSteps
  import Server
  import ServerClock
  import Client
  import ClientStamps

  /** What the server receives along a run. */
  function ServerInbox(cfg: Config, s: Sys, steps: seq<Step>): seq<(nat, Dgram)>
    decreases |steps|
  {
    if steps != [] && Enabled(cfg, s, steps[0]) then
      ServerReceives(s, steps[0]) + ServerInbox(cfg, Apply(cfg, s, steps[0]), steps[1..])
    else []
  }

  function ServerReceives(s: Sys, step: Step): seq<(nat, Dgram)>
    requires step.Deliver? ==> step.i < |s.net|
  {
    if step.Deliver? && s.net[step.i].ToServer? then [(s.net[step.i].from, s.net[step.i].d)] else []
  }

  /** What the server puts on the network along a run. */
  function ServerOutbox(cfg: Config, s: Sys, steps: seq<Step>): seq<Msg>
    decreases |steps|
  {
    if steps != [] && Enabled(cfg, s, steps[0]) then
      ServerSends(cfg, s, steps[0]) + ServerOutbox(cfg, Apply(cfg, s, steps[0]), steps[1..])
    else []
  }

  function ServerSends(cfg: Config, s: Sys, step: Step): seq<Msg>
    requires Enabled(cfg, s, step)
  {
    if step.Deliver? && s.net[step.i].ToServer? then Apply(cfg, s, step).net[|s.net| - 1..] else []
  }

  lemma StepOfItsLoop(cfg: Config, s: Sys, step: Step)
    requires Enabled(cfg, s, step)
    ensures if step.Deliver? && s.net[step.i].ToServer? then
              (Apply(cfg, s, step).server, ServerSends(cfg, s, step))
              == Server.Handle(s.server, cfg.n, cfg.junk, s.net[step.i].from, s.net[step.i].d)
            else Apply(cfg, s, step).server == s.server
  {
    if step.Deliver? && s.net[step.i].ToServer? {
      var m := s.net[step.i];
      var sent := Server.Handle(s.server, cfg.n, cfg.junk, m.from, m.d).1;
      assert (Without(s.net, step.i) + sent)[|s.net| - 1..] == sent;
    }
  }

  /** Both the state the server ends in and all it has sent are those of its loop on what
      was delivered to it. */
  lemma {:induction false} ServerRunsItsLoop(cfg: Config, s: Sys, steps: seq<Step>)
    ensures match After(cfg, s, steps)
            case None => true
            case Some(t) =>
              (t.server, ServerOutbox(cfg, s, steps))
              == Server.Serve(s.server, cfg.n, cfg.junk, ServerInbox(cfg, s, steps))
    decreases |steps|
  {
    if steps != [] && Enabled(cfg, s, steps[0]) {
      var t := Apply(cfg, s, steps[0]);
      var first, rest := ServerReceives(s, steps[0]), ServerInbox(cfg, t, steps[1..]);
      StepOfItsLoop(cfg, s, steps[0]);
      ServerRunsItsLoop(cfg, t, steps[1..]);
      assert (first + rest)[|first|..] == rest;
      assert [] + ServerOutbox(cfg, t, steps[1..]) == ServerOutbox(cfg, t, steps[1..]);
    }
  }

  lemma ServerReceivesInRange(cfg: Config, s: Sys, step: Step)
    requires Shape(cfg, s) && Enabled(cfg, s, step)
    ensures Server.InRange(ServerReceives(s, step))
  {
    if step.Deliver? {
      assert MsgOk(cfg, s.net[step.i]);
    }
  }

  lemma {:induction false} ServerInboxInRange(cfg: Config, s: Sys, steps: seq<Step>)
    requires SafePids(cfg) && Inv(cfg, s)
    ensures Server.InRange(ServerInbox(cfg, s, steps))
    decreases |steps|
  {
    if steps != [] && Enabled(cfg, s, steps[0]) {
      var t := Apply(cfg, s, steps[0]);
      InvariantSteps.StepKeepsInv(cfg, s, steps[0]);
      ServerInboxInRange(cfg, t, steps[1..]);
      ServerReceivesInRange(cfg, s, steps[0]);
      InRangeConcat(ServerReceives(s, steps[0]), ServerInbox(cfg, t, steps[1..]));
    }
  }

  lemma InRangeConcat(first: seq<(nat, Dgram)>, rest: seq<(nat, Dgram)>)
    requires Server.InRange(first) && Server.InRange(rest)
    ensures Server.InRange(first + rest)
  {
  }

  /** In any run of the system, everything the server sends is stamped in strictly
      increasing order if and only if its Lamport clock stays below INT_MAX; then its clock
      is the Lamport clock and ends above every stamp it received. */
  lemma ServerClockInSystem(cfg: Config, steps: seq<Step>, s: Sys)
    requires SafePids(cfg) && Reaches(cfg, steps, s)
    ensures var inbox := ServerInbox(cfg, Init(cfg), steps);
            var ideal := ServerClock.Lamport(0, Server.Start, cfg.n, cfg.junk, inbox);
            && (ideal < INT_MAX <==>
                ServerClock.Increasing(0, ServerOutbox(cfg, Init(cfg), steps)))
            && (ideal < INT_MAX ==>
                s.server.tempo == ideal
                && forall k :: 0 <= k < |inbox| ==> inbox[k].1.tempo < s.server.tempo)
  {
    InitHolds(cfg);
    ServerRunsItsLoop(cfg, Init(cfg), steps);
    ServerInboxInRange(cfg, Init(cfg), steps);
    var inbox := ServerInbox(cfg, Init(cfg), steps);
    ServerClock.StampsIncreaseIffNoWrap(Server.Start, cfg.n, cfg.junk, inbox);
    if ServerClock.Lamport(0, Server.Start, cfg.n, cfg.junk, inbox) < INT_MAX {
      forall k | 0 <= k < |inbox|
        ensures inbox[k].1.tempo < s.server.tempo
      {
        ServerClock.ClockPassesEveryStamp(Server.Start, cfg.n, cfg.junk, inbox, k);
      }
    }
  }

  /** What client `a` receives along a run. */
  function ClientInbox(cfg: Config, s: Sys, steps: seq<Step>, a: nat): seq<(Dgram, bool)>
    decreases |steps|
  {
    if steps != [] && Enabled(cfg, s, steps[0]) then
      ReceivedBy(s, steps[0], a) + ClientInbox(cfg, Apply(cfg, s, steps[0]), steps[1..], a)
    else []
  }

  function ReceivedBy(s: Sys, step: Step, a: nat): seq<(Dgram, bool)>
    requires step.Deliver? ==> step.i < |s.net|
  {
    if step.Deliver? && s.net[step.i].ToClient? && s.net[step.i].to == a then
      [(s.net[step.i].d, s.net[step.i].whole)]
    else []
  }

  /** What client `a` sends along a run. */
  function ClientOutbox(cfg: Config, s: Sys, steps: seq<Step>, a: nat): seq<Dgram>
    decreases |steps|
  {
    if steps != [] && Enabled(cfg, s, steps[0]) then
      SentBy(cfg, s, steps[0], a) + ClientOutbox(cfg, Apply(cfg, s, steps[0]), steps[1..], a)
    else []
  }

  function SentBy(cfg: Config, s: Sys, step: Step, a: nat): seq<Dgram>
    requires Enabled(cfg, s, step)
  {
    if step == Ask(a) then [Client.Ask(s.clients[a], cfg.pid[a]).1]
    else if step == Leave(a) then [Client.Leave(s.clients[a], cfg.pid[a]).1]
    else []
  }

  lemma StepOfItsLoops(cfg: Config, s: Sys, step: Step, a: nat, later: seq<(Dgram, bool)>)
    requires Enabled(cfg, s, step) && a < |s.clients| == |cfg.pid|
    ensures Client.Drive(s.clients[a], cfg.pid[a], ReceivedBy(s, step, a) + later)
         == Client.Resume(SentBy(cfg, s, step, a), Apply(cfg, s, step).clients[a], cfg.pid[a], later)
  {
    var c, pid := s.clients[a], cfg.pid[a];
    var inbox := ReceivedBy(s, step, a) + later;
    if step == Ask(a) || step == Leave(a) {
      assert inbox == later;
    } else if ReceivedBy(s, step, a) != [] {
      assert inbox[1..] == later;
      var next := Client.Drive(Apply(cfg, s, step).clients[a], pid, later);
      assert [] + next.1 == next.1;
    } else {
      assert inbox == later;
      assert [] + Client.Drive(c, pid, later).1 == Client.Drive(c, pid, later).1;
    }
  }

  lemma {:induction false} ClientRunsItsLoops(cfg: Config, s: Sys, steps: seq<Step>, a: nat,
                                              later: seq<(Dgram, bool)>)
    requires a < |s.clients| == |cfg.pid|
    ensures match After(cfg, s, steps)
            case None => true
            case Some(t) =>
              && a < |t.clients|
              && Client.Drive(s.clients[a], cfg.pid[a], ClientInbox(cfg, s, steps, a) + later)
                 == Client.Resume(ClientOutbox(cfg, s, steps, a), t.clients[a], cfg.pid[a], later)
    decreases |steps|
  {
    if steps == [] {
      assert ClientInbox(cfg, s, steps, a) + later == later;
      var run := Client.Drive(s.clients[a], cfg.pid[a], later);
      assert [] + run.1 == run.1;
    } else if Enabled(cfg, s, steps[0]) {
      var t := Apply(cfg, s, steps[0]);
      var first, rest := ReceivedBy(s, steps[0], a), ClientInbox(cfg, t, steps[1..], a);
      var sent, sentLater := SentBy(cfg, s, steps[0], a), ClientOutbox(cfg, t, steps[1..], a);
      StepOfItsLoops(cfg, s, steps[0], a, rest + later);
      assert (first + rest) + later == first + (rest + later);
      ClientRunsItsLoops(cfg, t, steps[1..], a, later);
      match After(cfg, s, steps)
      case None =>
      case Some(u) =>
        var tail := Client.Drive(u.clients[a], cfg.pid[a], later).1;
        assert sent + (sentLater + tail) == (sent + sentLater) + tail;
    }
  }

  /** From the start, whatever a client receives in a run of the system, what it has sent
      is a prefix of what its nested loops send on the same input. */
  lemma ClientSendsWhatItsLoopsSend(cfg: Config, steps: seq<Step>, s: Sys, a: nat)
    requires Reaches(cfg, steps, s) && a < |cfg.pid|
    ensures ClientOutbox(cfg, Init(cfg), steps, a)
         <= Client.Drive(Init(cfg).clients[a], cfg.pid[a], ClientInbox(cfg, Init(cfg), steps, a)).1
  {
    var inbox := ClientInbox(cfg, Init(cfg), steps, a);
    ClientRunsItsLoops(cfg, Init(cfg), steps, a, []);
    assert inbox + [] == inbox;
  }

  lemma {:induction false} OnlyOwnAcksAndGrants(cfg: Config, s: Sys, steps: seq<Step>, a: nat)
    requires SafePids(cfg) && Inv(cfg, s) && a < |cfg.pid|
    ensures ClientStamps.FromServer(cfg.pid[a], ClientInbox(cfg, s, steps, a))
    decreases |steps|
  {
    if steps != [] && Enabled(cfg, s, steps[0]) {
      InvariantSteps.StepKeepsInv(cfg, s, steps[0]);
      OnlyOwnAcksAndGrants(cfg, Apply(cfg, s, steps[0]), steps[1..], a);
      if steps[0].Deliver? {
        assert MsgOk(cfg, s.net[steps[0].i]);
      }
    }
  }

  /** In any run of the system, client `a` alternates REQUESTs and RELEASEs, stamped 3k - 2
      and 3k in round k if and only if k is at most LAST_ROUND. */
  lemma ClientStampsInSystem(cfg: Config, steps: seq<Step>, s: Sys, a: nat, j: nat)
    requires SafePids(cfg) && Reaches(cfg, steps, s) && a < |cfg.pid|
    requires j < |ClientOutbox(cfg, Init(cfg), steps, a)|
    ensures var d := ClientOutbox(cfg, Init(cfg), steps, a)[j];
            && d.cod == ClientStamps.Expected(j).0
            && (d.tempo == ClientStamps.Expected(j).1 <==> j / 2 + 1 <= ClientStamps.LAST_ROUND)
  {
    InitHolds(cfg);
    OnlyOwnAcksAndGrants(cfg, Init(cfg), steps, a);
    ClientSendsWhatItsLoopsSend(cfg, steps, s, a);
    ClientStamps.StampsExactUntilLastRound(
      Init(cfg).clients[a].resp, cfg.pid[a], ClientInbox(cfg, Init(cfg), steps, a), j);
  }
}
