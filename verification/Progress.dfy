/** Deadlock freedom and bounded waiting. No fairness is assumed: between two grants the
    system can only take so many steps, and a queued client can only be passed so often. */
module Progress {
  import opened CInt
  import opened Wrappers
  import opened Messages
  import opened QueueSpec
  import opened Sums
  import opened Protocol
  import opened Invariant
  import opened InvariantSteps
  import opened Safety
  import Server
  import Client

  // Deadlock freedom.

  /** A client is about to overflow an `int`: its clock, on the REPLY_ALLOW in flight to it,
      or the value it has to increment. */
  ghost predicate OverflowPending(s: Sys) {
    || (exists m :: m in s.net && IsAllow(m) && m.to < |s.clients| && s.clients[m.to].tempo == INT_MAX)
    || (exists a :: 0 <= a < |s.clients| && s.clients[a].phase == Client.Critical && s.clients[a].resp.rec >= INT_MAX)
  }

  /** Some datagram of the same client can be delivered now. */
  lemma {:induction false} FirstDeliverable(cfg: Config, s: Sys, i: nat) returns (k: nat)
    requires Shape(cfg, s) && i < |s.net| && s.net[i].ToServer?
    ensures Enabled(cfg, s, Deliver(k))
    decreases i
  {
    assert MsgOk(cfg, s.net[i]);
    if FirstOfItsSender(s.net, i) {
      k := i;
    } else {
      var j :| 0 <= j < i && s.net[j].ToServer? && s.net[j].from == s.net[i].from;
      k := FirstDeliverable(cfg, s, j);
    }
  }

  /** When the token is free, a client is about to ask or its request is in flight. */
  lemma StepWhenFree(cfg: Config, s: Sys) returns (step: Step)
    requires Inv(cfg, s) && Reliable(cfg) && |cfg.pid| > 0 && s.server.flag == -1
    ensures Enabled(cfg, s, step)
  {
    NoneElsewhere(s);
    assert forall i :: 0 <= i < |s.net| ==> s.net[i] in s.net;
    SumZero(s.net, AllowTo(0));
    assert Places(s, 0) == 1;
    if s.clients[0].phase == Client.Waiting {
      var i := SumWitness(s.net, RequestFrom(0));
      var k := FirstDeliverable(cfg, s, i);
      step := Deliver(k);
    } else {
      assert ClientOk(s.clients[0]);
      step := Ask(0);
    }
  }

  lemma StepOrOverflow(cfg: Config, s: Sys) returns (step: Step)
    requires Inv(cfg, s) && Reliable(cfg) && |cfg.pid| > 0
    ensures OverflowPending(s) || Enabled(cfg, s, step)
  {
    assert Tokens(s) == 1;
    if s.server.flag == -1 {
      step := StepWhenFree(cfg, s);
    } else if Sum(s.clients, CRITICAL) > 0 {
      var a := SumWitness(s.clients, CRITICAL);
      assert ClientOk(s.clients[a]);
      step := Leave(a);
    } else if Sum(s.net, ALLOWS) > 0 {
      var i := SumWitness(s.net, ALLOWS);
      AnsweredIsAlone(cfg, s, i);
      assert ClientOk(s.clients[s.net[i].to]) && s.net[i] in s.net;
      step := Deliver(i);
    } else {
      var i := SumWitness(s.net, RELEASES);
      var k := FirstDeliverable(cfg, s, i);
      step := Deliver(k);
    }
  }

  /** With reliable delivery and enough room, the system always has a next step, unless an
      overflow is pending. */
  lemma DeadlockFreedom(cfg: Config, steps: seq<Step>, s: Sys)
    requires SafePids(cfg) && Reliable(cfg) && |cfg.pid| > 0 && Reaches(cfg, steps, s)
    ensures OverflowPending(s) || exists step :: Enabled(cfg, s, step)
  {
    ReachableInv(cfg, steps, s);
    var step := StepOrOverflow(cfg, s);
  }

  lemma GrantAtClockLimit(cfg: Config, steps: seq<Step>, s: Sys, i: nat)
    requires SafePids(cfg) && Reaches(cfg, steps, s) && Inv(cfg, s)
    requires i < |s.net| && IsAllow(s.net[i])
    ensures s.net[i].to < |s.clients|
    ensures s.clients[s.net[i].to].tempo == INT_MAX ==> Asks(steps, s.net[i].to) == 715827883
  {
    AnsweredIsAlone(cfg, s, i);
    InitHolds(cfg);
    ClientCount(cfg, Init(cfg), steps);
    RunMovesNextStamp(cfg, Init(cfg), steps, s.net[i].to);
  }

  /** An overflow is pending only after 715827883 requests of one client or INT_MAX - 30
      updates of the value. */
  lemma OverflowIsFarAway(cfg: Config, steps: seq<Step>, s: Sys)
    requires SafePids(cfg) && Reaches(cfg, steps, s) && OverflowPending(s)
    ensures || (exists a :: 0 <= a < |cfg.pid| && Asks(steps, a) == 715827883)
            || Served(cfg, Init(cfg), steps) >= INT_MAX - 30
  {
    ReachableInv(cfg, steps, s);
    NoLostUpdate(cfg, steps, s);
    if m :| m in s.net && IsAllow(m) && m.to < |s.clients| && s.clients[m.to].tempo == INT_MAX {
      var i :| 0 <= i < |s.net| && s.net[i] == m;
      GrantAtClockLimit(cfg, steps, s, i);
    }
  }

  // How many steps between grants.

  const WORK: Msg -> nat := (m: Msg) => if m.ToServer? then 2 else if IsAllow(m) then 7 else 1

  const EFFORT: Client.State -> nat := (c: Client.State) =>
    match c.phase case Idle => 3 case Waiting => 0 case Critical => 6

  /** The work in the system: each step does one unit, and only a grant makes new work. */
  function Work(s: Sys): nat {
    Sum(s.net, WORK) + Sum(s.clients, EFFORT)
  }

  function GrantCount(s: Sys, step: Step): nat {
    if GrantedBy(s, step).Some? then 1 else 0
  }

  lemma StepDoesWork(cfg: Config, s: Sys, step: Step)
    requires Inv(cfg, s) && Enabled(cfg, s, step)
    ensures Work(Apply(cfg, s, step)) + 1 <= Work(s) + 7 * GrantCount(s, step)
    ensures !step.Drop? ==> Work(Apply(cfg, s, step)) + 1 == Work(s) + 7 * GrantCount(s, step)
  {
    match step
    case Ask(a) =>
      var (c, d) := Client.Ask(s.clients[a], cfg.pid[a]);
      NetAfterSend(s.net, ToServer(a, d), WORK);
      SumUpdate(s.clients, a, c, EFFORT);
    case Leave(a) =>
      var (c, d) := Client.Leave(s.clients[a], cfg.pid[a]);
      NetAfterSend(s.net, ToServer(a, d), WORK);
      SumUpdate(s.clients, a, c, EFFORT);
    case Drop(i) =>
      SumWithout(s.net, i, WORK);
    case Deliver(i) =>
      var m := s.net[i];
      assert MsgOk(cfg, m);
      if m.ToClient? {
        assert ClientOk(s.clients[m.to]);
        SumWithout(s.net, i, WORK);
        SumUpdate(s.clients, m.to, Client.Receive(s.clients[m.to], cfg.pid[m.to], m.d, m.whole), EFFORT);
      } else {
        ServerDoesWork(cfg, s, i);
      }
  }

  lemma ServerDoesWork(cfg: Config, s: Sys, i: nat)
    requires Enabled(cfg, s, Deliver(i)) && s.net[i].ToServer?
    ensures Work(Apply(cfg, s, Deliver(i))) + 1 == Work(s) + 7 * GrantCount(s, Deliver(i))
  {
    var m := s.net[i];
    var (server, sent) := Server.Handle(s.server, cfg.n, cfg.junk, m.from, m.d);
    assert sent == [sent[0]] + sent[1..];
    NetAfterDelivery(s.net, i, sent[0], sent[1..], WORK);
  }

  /** How many grants a run makes. */
  function Grants(cfg: Config, s: Sys, steps: seq<Step>): nat
    decreases |steps|
  {
    if steps != [] && Enabled(cfg, s, steps[0]) then
      GrantCount(s, steps[0]) + Grants(cfg, Apply(cfg, s, steps[0]), steps[1..])
    else 0
  }

  lemma {:induction false} RunDoesWork(cfg: Config, s: Sys, steps: seq<Step>)
    requires SafePids(cfg) && Inv(cfg, s)
    ensures match After(cfg, s, steps)
            case None => true
            case Some(t) =>
              && |steps| + Work(t) <= Work(s) + 7 * Grants(cfg, s, steps)
              && (!cfg.lossy ==> |steps| + Work(t) == Work(s) + 7 * Grants(cfg, s, steps))
    decreases |steps|
  {
    if steps != [] && Enabled(cfg, s, steps[0]) {
      StepDoesWork(cfg, s, steps[0]);
      StepKeepsInv(cfg, s, steps[0]);
      RunDoesWork(cfg, Apply(cfg, s, steps[0]), steps[1..]);
    }
  }

  /** Conservation of work from the start: every run of the system grants the token once in
      seven steps, after at most three steps for each client. */
  lemma GrantsKeepComing(cfg: Config, steps: seq<Step>, s: Sys)
    requires SafePids(cfg) && Reaches(cfg, steps, s)
    ensures |steps| + Work(s) <= 3 * |cfg.pid| + 7 * Grants(cfg, Init(cfg), steps)
    ensures !cfg.lossy ==> |steps| + Work(s) == 3 * |cfg.pid| + 7 * Grants(cfg, Init(cfg), steps)
  {
    InitHolds(cfg);
    RunDoesWork(cfg, Init(cfg), steps);
    IdleEffort(Init(cfg).clients);
  }

  lemma {:induction false} IdleEffort(clients: seq<Client.State>)
    requires forall a :: 0 <= a < |clients| ==> clients[a].phase == Client.Idle
    ensures Sum(clients, EFFORT) == 3 * |clients|
  {
    if clients != [] {
      IdleEffort(clients[1..]);
    }
  }

  // How often a queued client can be passed.

  /** How many of the REQUESTs still to be sent, the next one stamped `x`, will carry a
      stamp of at most `t`: those up to `t`, and the one whose stamp wraps to zero. */
  function Upcoming(x: int, t: int): nat {
    (if x <= t then (t - x) / 3 + 1 else 0) + (if x <= INT_MAX then 1 else 0)
  }

  function StillToAsk(t: int): Client.State -> nat {
    (c: Client.State) => Upcoming(NextStamp(c), t)
  }

  function OnTheWay(a: nat, t: int): Msg -> nat {
    (m: Msg) => if IsRequest(m) && m.from != a && m.d.tempo <= t then 1 else 0
  }

  /** What can still be served before the item at index `j` of the queue: the items in
      front of it and the requests of other clients, in flight or still to be sent, with a
      stamp that is not later. */
  function Ahead(s: Sys, a: nat, j: nat): int
    requires a < |s.clients| && j < |s.server.fila|
  {
    var t := s.server.fila[j].tempo;
    j + Sum(s.net, OnTheWay(a, t)) + Sum(s.clients, StillToAsk(t)) - StillToAsk(t)(s.clients[a])
  }

  lemma AheadIsNatural(s: Sys, a: nat, j: nat)
    requires a < |s.clients| && j < |s.server.fila|
    ensures Ahead(s, a, j) >= j
  {
    SumAtLeast(s.clients, a, StillToAsk(s.server.fila[j].tempo));
  }

  /** Client `a` waits at index `j` of the queue. */
  ghost predicate Waits(s: Sys, a: nat, j: nat) {
    a < |s.clients| && j < |s.server.fila| && s.server.fila[j].addr == a
  }

  lemma QueuedIsAlone(cfg: Config, s: Sys, a: nat, j: nat)
    requires Shape(cfg, s) && OnePlaceEach(cfg, s) && Waits(s, a, j)
    ensures s.clients[a].phase == Client.Waiting
    ensures forall m :: m in s.net ==> !(IsAllow(m) && m.to == a) && !(IsRequest(m) && m.from == a)
    ensures forall k :: 0 <= k < |s.server.fila| && k != j ==> s.server.fila[k].addr != a
  {
    assert Places(s, a) <= 1;
    SumAtLeast(s.server.fila, j, QueuedAt(a));
    forall m | m in s.net
      ensures !(IsAllow(m) && m.to == a) && !(IsRequest(m) && m.from == a)
    {
      var i :| 0 <= i < |s.net| && s.net[i] == m;
      SumAtLeast(s.net, i, AllowTo(a));
      SumAtLeast(s.net, i, RequestFrom(a));
    }
    forall k | 0 <= k < |s.server.fila| && k != j
      ensures s.server.fila[k].addr != a
    {
      if k < j {
        SumAtLeastTwo(s.server.fila, k, j, QueuedAt(a));
      } else {
        SumAtLeastTwo(s.server.fila, j, k, QueuedAt(a));
      }
    }
  }

  /** One REQUEST less to send, one more on the way, wrapped or not. */
  lemma AskMovesOne(c: Client.State, pid: int, t: int)
    requires ClientOk(c) && Client.CanAsk(c) && 0 <= t < INT_MAX
    ensures var (next, d) := Client.Ask(c, pid);
            StillToAsk(t)(c) == StillToAsk(t)(next) + if d.tempo <= t then 1 else 0
  {
    var x := c.tempo + 1;
    assert NextStamp(c) == x && NextStamp(Client.Ask(c, pid).0) == x + 3;
    if x <= t {
      assert (t - x) / 3 == (t - (x + 3)) / 3 + 1;
    }
  }

  lemma SendKeepsAhead(cfg: Config, s: Sys, step: Step, a: nat, j: nat)
    requires Inv(cfg, s) && Enabled(cfg, s, step) && (step.Ask? || step.Leave?) && Waits(s, a, j)
    ensures var t := Apply(cfg, s, step);
            Waits(t, a, j) && t.server == s.server && Ahead(t, a, j) == Ahead(s, a, j)
  {
    var b := step.a;
    var stamp := s.server.fila[j].tempo;
    assert ItemOk(cfg, s.server.fila[j]);
    QueuedIsAlone(cfg, s, a, j);
    assert ClientOk(s.clients[b]) && b != a;
    if step.Ask? {
      var (c, d) := Client.Ask(s.clients[b], cfg.pid[b]);
      NetAfterSend(s.net, ToServer(b, d), OnTheWay(a, stamp));
      SumUpdate(s.clients, b, c, StillToAsk(stamp));
      AskMovesOne(s.clients[b], cfg.pid[b], stamp);
    } else {
      var (c, d) := Client.Leave(s.clients[b], cfg.pid[b]);
      NetAfterSend(s.net, ToServer(b, d), OnTheWay(a, stamp));
      SumUpdate(s.clients, b, c, StillToAsk(stamp));
    }
  }

  lemma ReceiveKeepsAhead(cfg: Config, s: Sys, i: nat, a: nat, j: nat)
    requires Inv(cfg, s) && Enabled(cfg, s, Deliver(i)) && s.net[i].ToClient? && Waits(s, a, j)
    ensures var t := Apply(cfg, s, Deliver(i));
            Waits(t, a, j) && t.server == s.server && Ahead(t, a, j) == Ahead(s, a, j)
  {
    var m := s.net[i];
    var stamp := s.server.fila[j].tempo;
    assert MsgOk(cfg, m) && ClientOk(s.clients[m.to]);
    SumWithout(s.net, i, OnTheWay(a, stamp));
    var c := Client.Receive(s.clients[m.to], cfg.pid[m.to], m.d, m.whole);
    SumUpdate(s.clients, m.to, c, StillToAsk(stamp));
    assert NextStamp(c) == NextStamp(s.clients[m.to]);
  }

  lemma DropKeepsAhead(cfg: Config, s: Sys, i: nat, a: nat, j: nat)
    requires Enabled(cfg, s, Drop(i)) && Waits(s, a, j)
    ensures var t := Apply(cfg, s, Drop(i));
            Waits(t, a, j) && t.server == s.server && Ahead(t, a, j) <= Ahead(s, a, j)
  {
    SumWithout(s.net, i, OnTheWay(a, s.server.fila[j].tempo));
  }

  /** A queued request goes in front of the waiter only if it was counted. */
  lemma RequestKeepsAhead(cfg: Config, s: Sys, i: nat, a: nat, j: nat) returns (k: nat)
    requires Inv(cfg, s) && Enabled(cfg, s, Deliver(i)) && IsRequest(s.net[i]) && Waits(s, a, j)
    ensures GrantedBy(s, Deliver(i)) == None
    ensures var t := Apply(cfg, s, Deliver(i));
            Waits(t, a, k) && t.server.fila[k] == s.server.fila[j] && Ahead(t, a, k) <= Ahead(s, a, j)
  {
    var m := s.net[i];
    var stamp := s.server.fila[j].tempo;
    QueuedIsAlone(cfg, s, a, j);
    assert m in s.net && m.from != a;
    var (server, sent) := Server.Handle(s.server, cfg.n, cfg.junk, m.from, m.d);
    assert sent == [sent[0]] + sent[1..];
    NetAfterDelivery(s.net, i, sent[0], sent[1..], OnTheWay(a, stamp));
    var item := Item(m.d.pid, m.d.tempo, m.from);
    k := j;
    if Accepts(s.server.fila, cfg.n, item.pid) {
      var p := Position(s.server.fila, item.tempo);
      InsertMovesByOne(s.server.fila, item, j);
      if p <= j {
        k := j + 1;
        if stamp < item.tempo {
          LaterStampStaysBehind(s.server.fila, item, j);
        }
      }
    }
  }

  /** A grant to somebody else moves the waiter up by one. */
  lemma ReleaseLowersAhead(cfg: Config, s: Sys, i: nat, a: nat, j: nat)
    requires Inv(cfg, s) && Enabled(cfg, s, Deliver(i)) && IsRelease(s.net[i]) && Waits(s, a, j)
    requires GrantedBy(s, Deliver(i)) != Some(a)
    ensures GrantedBy(s, Deliver(i)).Some? && j > 0
    ensures var t := Apply(cfg, s, Deliver(i));
            && Waits(t, a, j - 1) && t.server.fila[j - 1] == s.server.fila[j]
            && Ahead(t, a, j - 1) + 1 == Ahead(s, a, j)
  {
    var m := s.net[i];
    var stamp := s.server.fila[j].tempo;
    var (server, sent) := Server.Handle(s.server, cfg.n, cfg.junk, m.from, m.d);
    assert sent == [sent[0]] + sent[1..];
    NetAfterDelivery(s.net, i, sent[0], sent[1..], OnTheWay(a, stamp));
  }

  /** What is ahead of a queued client never grows, and shrinks with every grant. */
  lemma StepBypass(cfg: Config, s: Sys, step: Step, a: nat, j: nat) returns (k: nat)
    requires Inv(cfg, s) && Enabled(cfg, s, step) && Waits(s, a, j)
    requires GrantedBy(s, step) != Some(a)
    ensures var t := Apply(cfg, s, step);
            && Waits(t, a, k) && t.server.fila[k] == s.server.fila[j]
            && Ahead(t, a, k) + GrantCount(s, step) <= Ahead(s, a, j)
  {
    k := j;
    match step
    case Ask(b) => SendKeepsAhead(cfg, s, step, a, j);
    case Leave(b) => SendKeepsAhead(cfg, s, step, a, j);
    case Drop(i) => DropKeepsAhead(cfg, s, i, a, j);
    case Deliver(i) =>
      assert MsgOk(cfg, s.net[i]);
      if s.net[i].ToClient? {
        ReceiveKeepsAhead(cfg, s, i, a, j);
      } else if IsRequest(s.net[i]) {
        k := RequestKeepsAhead(cfg, s, i, a, j);
      } else {
        ReleaseLowersAhead(cfg, s, i, a, j);
        k := j - 1;
      }
  }

  /** No step of the run hands the token to `a`. */
  predicate NeverGranted(cfg: Config, s: Sys, steps: seq<Step>, a: nat)
    decreases |steps|
  {
    steps != [] && Enabled(cfg, s, steps[0]) ==>
      GrantedBy(s, steps[0]) != Some(a) && NeverGranted(cfg, Apply(cfg, s, steps[0]), steps[1..], a)
  }

  lemma {:induction false} RunBypass(cfg: Config, s: Sys, steps: seq<Step>, a: nat, j: nat)
    requires SafePids(cfg) && Inv(cfg, s) && Waits(s, a, j)
    requires After(cfg, s, steps).Some? && NeverGranted(cfg, s, steps, a)
    ensures Grants(cfg, s, steps) <= Ahead(s, a, j)
    decreases |steps|
  {
    AheadIsNatural(s, a, j);
    if steps != [] {
      var k := StepBypass(cfg, s, steps[0], a, j);
      StepKeepsInv(cfg, s, steps[0]);
      RunBypass(cfg, Apply(cfg, s, steps[0]), steps[1..], a, k);
    }
  }

  /** Bounded bypass: from any reachable state in which client `a` is queued, whatever
      happens next, the token goes at most `Ahead` times to others before it goes to `a`. */
  lemma BoundedBypass(cfg: Config, steps: seq<Step>, s: Sys, a: nat, j: nat, more: seq<Step>)
    requires SafePids(cfg) && Reaches(cfg, steps, s) && Waits(s, a, j)
    requires After(cfg, s, more).Some? && NeverGranted(cfg, s, more, a)
    ensures Grants(cfg, s, more) <= Ahead(s, a, j)
  {
    ReachableInv(cfg, steps, s);
    RunBypass(cfg, s, more, a, j);
  }

  /** No starvation, with an explicit bound and no fairness assumption: any continuation
      longer than `Work + 7 * Ahead` steps grants the token to the queued client. */
  lemma NoStarvation(cfg: Config, steps: seq<Step>, s: Sys, a: nat, j: nat, more: seq<Step>)
    requires SafePids(cfg) && Reaches(cfg, steps, s) && Waits(s, a, j)
    requires After(cfg, s, more).Some?
    ensures |more| > Work(s) + 7 * Ahead(s, a, j) ==> !NeverGranted(cfg, s, more, a)
  {
    ReachableInv(cfg, steps, s);
    RunDoesWork(cfg, s, more);
    if NeverGranted(cfg, s, more, a) {
      RunBypass(cfg, s, more, a, j);
    }
  }

  /** A run can be continued to any length, unless it comes to a pending overflow. */
  lemma {:induction false} Continue(cfg: Config, s: Sys, k: nat) returns (more: seq<Step>, t: Sys)
    requires SafePids(cfg) && Reliable(cfg) && Inv(cfg, s) && |cfg.pid| > 0
    ensures After(cfg, s, more) == Some(t)
    ensures |more| == k || (|more| < k && OverflowPending(t))
    decreases k
  {
    more, t := [], s;
    if k > 0 {
      var step := StepOrOverflow(cfg, s);
      if !OverflowPending(s) {
        StepKeepsInv(cfg, s, step);
        var rest;
        rest, t := Continue(cfg, Apply(cfg, s, step), k - 1);
        more := [step] + rest;
        assert more[1..] == rest;
      }
    }
  }

  /** A queued client can always be served: some continuation grants it the token or comes
      to a pending overflow. */
  lemma QueuedIsServed(cfg: Config, steps: seq<Step>, s: Sys, a: nat, j: nat)
    returns (more: seq<Step>, t: Sys)
    requires SafePids(cfg) && Reliable(cfg) && Reaches(cfg, steps, s) && Waits(s, a, j)
    ensures After(cfg, s, more) == Some(t)
    ensures !NeverGranted(cfg, s, more, a) || OverflowPending(t)
  {
    ReachableInv(cfg, steps, s);
    AheadIsNatural(s, a, j);
    more, t := Continue(cfg, s, Work(s) + 7 * Ahead(s, a, j) + 1);
    NoStarvation(cfg, steps, s, a, j, more);
  }
}
