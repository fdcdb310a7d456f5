/** What holds in every reachable state of the token protocol, whatever the interleaving
    and the number of clients. */
module Safety {
  import opened CInt
  import opened Wrappers
  import opened Messages
  import opened QueueSpec
  import opened Sums
  import opened Protocol
  import opened Invariant
  import opened InvariantSteps
  import Server
  import Client

  lemma {:induction false} RunKeepsInv(cfg: Config, s: Sys, steps: seq<Step>)
    requires SafePids(cfg) && Inv(cfg, s)
    ensures match After(cfg, s, steps) case None => true case Some(t) => Inv(cfg, t)
    decreases |steps|
  {
    if steps != [] && Enabled(cfg, s, steps[0]) {
      StepKeepsInv(cfg, s, steps[0]);
      RunKeepsInv(cfg, Apply(cfg, s, steps[0]), steps[1..]);
    }
  }

  lemma ReachableInv(cfg: Config, steps: seq<Step>, s: Sys)
    requires SafePids(cfg) && Reaches(cfg, steps, s)
    ensures Inv(cfg, s)
  {
    InitHolds(cfg);
    RunKeepsInv(cfg, Init(cfg), steps);
  }

  // Mutual exclusion.

  /** The token is in exactly one place, and never in two when datagrams may be lost. */
  lemma TokenConservation(cfg: Config, steps: seq<Step>, s: Sys)
    requires SafePids(cfg) && Reaches(cfg, steps, s)
    ensures Tokens(s) <= 1
    ensures !cfg.lossy ==> Tokens(s) == 1
  {
    ReachableInv(cfg, steps, s);
  }

  lemma OneTokenExcludes(s: Sys)
    requires Tokens(s) <= 1
    ensures MutualExclusion(s)
  {
    forall a, b | 0 <= a < b < |s.clients|
      ensures !(s.clients[a].phase == Client.Critical && s.clients[b].phase == Client.Critical)
    {
      SumAtLeastTwo(s.clients, a, b, CRITICAL);
    }
  }

  lemma {:induction false} ClientCount(cfg: Config, s: Sys, steps: seq<Step>)
    ensures match After(cfg, s, steps) case None => true case Some(t) => |t.clients| == |s.clients|
    decreases |steps|
  {
    if steps != [] && Enabled(cfg, s, steps[0]) {
      ClientCount(cfg, Apply(cfg, s, steps[0]), steps[1..]);
    }
  }

  ghost predicate AlwaysExclusive(cfg: Config) {
    forall steps :: match After(cfg, Init(cfg), steps) case None => true case Some(s) => MutualExclusion(s)
  }

  /** Mutual exclusion holds in every reachable state exactly when there are not two
      clients or no PID is congruent to 255 modulo 256, that is, none narrows to the mark
      of a free token. */
  lemma MutualExclusionIff(cfg: Config)
    ensures AlwaysExclusive(cfg) <==>
              |cfg.pid| <= 1 || forall a :: 0 <= a < |cfg.pid| ==> cfg.pid[a] % 256 != 255
  {
    forall a | 0 <= a < |cfg.pid|
      ensures NarrowChar(cfg.pid[a]) == -1 <==> cfg.pid[a] % 256 == 255
    {
      NarrowCharIsMinusOne(cfg.pid[a]);
    }
    if |cfg.pid| <= 1 || SafePids(cfg) {
      forall steps
        ensures match After(cfg, Init(cfg), steps) case None => true case Some(s) => MutualExclusion(s)
      {
        ClientCount(cfg, Init(cfg), steps);
        match After(cfg, Init(cfg), steps)
        case None =>
        case Some(s) =>
          if SafePids(cfg) {
            TokenConservation(cfg, steps, s);
            OneTokenExcludes(s);
          }
      }
    } else {
      var a: nat :| a < |cfg.pid| && NarrowChar(cfg.pid[a]) == -1;
      var b: nat := if a == 0 then 1 else 0;
      var steps := TwoHolders(cfg, a, b);
      assert After(cfg, Init(cfg), steps).Some?;
    }
  }

  /** While the flag reads free, a client's first request is answered with the token. */
  lemma FirstRequestGranted(cfg: Config, s: Sys, a: nat) returns (t: Sys)
    requires a < |s.clients| == |cfg.pid| && s.server.flag == -1 && 0 <= s.server.tempo < 1000
    requires s.clients[a].phase == Client.Idle && s.clients[a].tempo == 0
    requires forall m :: m in s.net ==> m.ToClient?
    ensures After(cfg, s, [Ask(a), Deliver(|s.net|)]) == Some(t)
    ensures |t.clients| == |s.clients| && t.clients == s.clients[a := t.clients[a]]
    ensures t.clients[a].phase == Client.Waiting && t.clients[a].tempo == 1
    ensures t.server.flag == NarrowChar(cfg.pid[a]) && 0 <= t.server.tempo <= s.server.tempo + 3
    ensures |t.net| == |s.net| + 2 && t.net[..|s.net|] == s.net
    ensures t.net[|s.net|].ToClient?
    ensures IsAllow(t.net[|s.net| + 1]) && t.net[|s.net| + 1].to == a
    ensures t.net[|s.net| + 1].d.cod == REPLY_ALLOW && t.net[|s.net| + 1].d.rec == s.server.valor
    ensures t.server.fila == s.server.fila
  {
    var asked := Apply(cfg, s, Ask(a));
    var i := |s.net|;
    assert asked.net[i] == ToServer(a, Dgram(-1, REQUEST_TOKEN, 1, cfg.pid[a]));
    assert FirstOfItsSender(asked.net, i) by {
      assert forall j :: 0 <= j < i ==> asked.net[j] == s.net[j] && s.net[j] in s.net;
    }
    assert Without(asked.net, i) == s.net;
    t := Apply(cfg, asked, Deliver(i));
    AfterOne(cfg, asked, Deliver(i));
    assert [Ask(a), Deliver(i)][1..] == [Deliver(i)];
  }

  /** The client that a grant in flight is for takes the token. */
  lemma GrantTaken(cfg: Config, s: Sys, i: nat) returns (t: Sys)
    requires |s.clients| == |cfg.pid| && i < |s.net| && IsAllow(s.net[i]) && s.net[i].to < |cfg.pid|
    requires s.net[i].d.cod == REPLY_ALLOW
    requires s.clients[s.net[i].to].phase == Client.Waiting && s.clients[s.net[i].to].tempo == 1
    ensures After(cfg, s, [Deliver(i)]) == Some(t)
    ensures |t.clients| == |s.clients| && t.clients == s.clients[s.net[i].to := t.clients[s.net[i].to]]
    ensures t.clients[s.net[i].to].phase == Client.Critical && t.clients[s.net[i].to].tempo == 2
    ensures t.clients[s.net[i].to].resp.rec == s.net[i].d.rec
    ensures t.net == Without(s.net, i) && t.server == s.server
  {
    t := Apply(cfg, s, Deliver(i));
    AfterOne(cfg, s, Deliver(i));
  }

  /** The failing run: `a` asks first and gets the token, but its narrowed PID leaves the
      flag at -1, so the server grants `b` as well; both replies arrive. */
  lemma TwoHolders(cfg: Config, a: nat, b: nat) returns (steps: seq<Step>)
    requires a < |cfg.pid| && b < |cfg.pid| && a != b && NarrowChar(cfg.pid[a]) == -1
    ensures match After(cfg, Init(cfg), steps) case None => false case Some(s) => !MutualExclusion(s)
  {
    var s := Init(cfg);
    var t := FirstRequestGranted(cfg, s, a);
    assert forall m :: m in t.net ==> m == t.net[0] || m == t.net[1];
    var u := FirstRequestGranted(cfg, t, b);
    assert u.net[1] == u.net[..2][1];
    var v := GrantTaken(cfg, u, 1);
    assert v.net[2] == u.net[3];
    var w := GrantTaken(cfg, v, 2);
    assert w.clients[a].phase == Client.Critical && w.clients[b].phase == Client.Critical;
    var first, second := [Ask(a), Deliver(0)], [Ask(b), Deliver(2)];
    AfterConcat(cfg, s, first, second);
    AfterConcat(cfg, s, first + second, [Deliver(1)]);
    AfterConcat(cfg, s, first + second + [Deliver(1)], [Deliver(2)]);
    steps := first + second + [Deliver(1)] + [Deliver(2)];
  }

  // The shared value.

  /** How many RELEASEs the server processes along a run. */
  function Served(cfg: Config, s: Sys, steps: seq<Step>): nat
    decreases |steps|
  {
    if steps != [] && Enabled(cfg, s, steps[0]) then
      (if steps[0].Deliver? && IsRelease(s.net[steps[0].i]) then 1 else 0)
      + Served(cfg, Apply(cfg, s, steps[0]), steps[1..])
    else 0
  }

  lemma StepKeepsValue(cfg: Config, s: Sys, step: Step)
    requires Inv(cfg, s) && Enabled(cfg, s, step)
    ensures Apply(cfg, s, step).server.valor
         == s.server.valor + if step.Deliver? && IsRelease(s.net[step.i]) then 1 else 0
  {
    if step.Deliver? {
      assert s.net[step.i] in s.net;
    }
  }

  lemma {:induction false} RunKeepsValue(cfg: Config, s: Sys, steps: seq<Step>)
    requires SafePids(cfg) && Inv(cfg, s)
    ensures match After(cfg, s, steps)
            case None => true
            case Some(t) => t.server.valor == s.server.valor + Served(cfg, s, steps)
    decreases |steps|
  {
    if steps != [] && Enabled(cfg, s, steps[0]) {
      StepKeepsValue(cfg, s, steps[0]);
      StepKeepsInv(cfg, s, steps[0]);
      RunKeepsValue(cfg, Apply(cfg, s, steps[0]), steps[1..]);
    }
  }

  /** No update is lost: the value is 30 plus the RELEASEs served; a grant in flight and a
      client in its critical section have it; a RELEASE in flight has one more. */
  lemma NoLostUpdate(cfg: Config, steps: seq<Step>, s: Sys)
    requires SafePids(cfg) && Reaches(cfg, steps, s)
    ensures s.server.valor == 30 + Served(cfg, Init(cfg), steps)
    ensures forall m :: m in s.net && IsAllow(m) ==> m.d.rec == s.server.valor
    ensures forall m :: m in s.net && IsRelease(m) ==> m.d.rec == s.server.valor + 1
    ensures forall a :: 0 <= a < |s.clients| && s.clients[a].phase == Client.Critical ==>
              s.clients[a].resp.rec == s.server.valor
  {
    InitHolds(cfg);
    RunKeepsInv(cfg, Init(cfg), steps);
    RunKeepsValue(cfg, Init(cfg), steps);
  }

  // Holder, routing and order.

  /** Whoever has the token, on its way there or back, is the holder on record. */
  lemma HolderOnRecord(cfg: Config, steps: seq<Step>, s: Sys, a: nat)
    requires SafePids(cfg) && Reaches(cfg, steps, s) && a < |s.clients|
    requires || (exists m :: m in s.net && IsAllow(m) && m.to == a)
             || s.clients[a].phase == Client.Critical
             || (exists m :: m in s.net && IsRelease(m) && m.from == a)
    ensures a < |cfg.pid| && s.server.flag == NarrowChar(cfg.pid[a]) != -1
  {
    ReachableInv(cfg, steps, s);
  }

  /** A grant made from the queue carries the PID of the client at the address it is sent
      to, although both were stored when the request arrived and moved through the queue. */
  lemma GrantsAreRouted(cfg: Config, steps: seq<Step>, s: Sys, i: nat)
    requires SafePids(cfg) && Reaches(cfg, steps, s) && Enabled(cfg, s, Deliver(i))
    ensures match GrantedBy(s, Deliver(i))
            case None => true
            case Some(to) =>
              var t := Apply(cfg, s, Deliver(i));
              && to < |cfg.pid| && to < |s.clients|
              && t.net[|t.net| - 1].ToClient? && IsAllow(t.net[|t.net| - 1])
              && t.net[|t.net| - 1].to == to
              && t.net[|t.net| - 1].d.pid == cfg.pid[to]
              && t.net[|t.net| - 1].d.rec == t.server.valor
              && t.server.flag == NarrowChar(cfg.pid[to])
              && s.clients[to].phase == Client.Waiting
  {
    ReachableInv(cfg, steps, s);
    match GrantedBy(s, Deliver(i))
    case None =>
    case Some(to) =>
      var m := s.net[i];
      assert MsgOk(cfg, m);
      if IsRequest(m) {
        assert Places(s, m.from) <= 1;
        SumAtLeast(s.net, i, RequestFrom(m.from));
      } else {
        var first := s.server.fila[0];
        assert ItemOk(cfg, first) && Places(s, first.addr) <= 1;
        SumAtLeast(s.server.fila, 0, QueuedAt(first.addr));
      }
  }

  /** While someone waits the token is not free and no request is granted directly: every
      grant goes to the head of the queue, whose stamp is at most that of any waiter. */
  lemma GrantsInTimeOrder(cfg: Config, steps: seq<Step>, s: Sys, i: nat, waiter: Item<nat>)
    requires SafePids(cfg) && Reaches(cfg, steps, s) && Enabled(cfg, s, Deliver(i))
    requires waiter in s.server.fila && GrantedBy(s, Deliver(i)).Some?
    ensures s.server.flag != -1 && IsRelease(s.net[i])
    ensures s.server.fila[0].addr == GrantedBy(s, Deliver(i)).value
    ensures s.server.fila[0].tempo <= waiter.tempo
    ensures Apply(cfg, s, Deliver(i)).server.fila == s.server.fila[1..]
  {
    ReachableInv(cfg, steps, s);
    var k :| 0 <= k < |s.server.fila| && s.server.fila[k] == waiter;
  }

  // Where each client is.

  /** With reliable delivery and enough room in the queue, each client is always in exactly
      one place; its request is never refused. */
  lemma RequestConservation(cfg: Config, steps: seq<Step>, s: Sys, a: nat)
    requires SafePids(cfg) && Reaches(cfg, steps, s) && a < |s.clients|
    ensures Places(s, a) <= 1
    ensures Reliable(cfg) ==> Places(s, a) == 1
  {
    ReachableInv(cfg, steps, s);
  }

  /** The retry branch is dead: no ACK for another PID ever reaches a client. */
  lemma RetryIsUnreachable(cfg: Config, steps: seq<Step>, s: Sys, i: nat)
    requires SafePids(cfg) && Reaches(cfg, steps, s)
    requires Enabled(cfg, s, Deliver(i)) && s.net[i].ToClient?
    ensures var to := s.net[i].to;
            && s.clients[to].aguardar == 0
            && (s.net[i].d.cod == ACK ==> s.net[i].d.pid == cfg.pid[to])
            && Apply(cfg, s, Deliver(i)).clients[to].phase != Client.Idle
  {
    ReachableInv(cfg, steps, s);
    assert MsgOk(cfg, s.net[i]);
    assert ClientOk(s.clients[s.net[i].to]);
  }

  // The clocks inside the system.

  /** Every clock and every stamp in flight is in range, and no datagram can make the
      server's clock arithmetic overflow. */
  lemma ClocksInRange(cfg: Config, steps: seq<Step>, s: Sys)
    requires SafePids(cfg) && Reaches(cfg, steps, s)
    ensures 0 <= s.server.tempo <= INT_MAX
    ensures forall a :: 0 <= a < |s.clients| ==> 0 <= s.clients[a].tempo <= INT_MAX
    ensures forall m :: m in s.net ==> 0 <= m.d.tempo < INT_MAX
    ensures forall m :: m in s.net && m.ToServer? ==> Server.Defined(s.server, m.d)
  {
    ReachableInv(cfg, steps, s);
    assert forall m :: m in s.net ==> MsgOk(cfg, m);
    assert forall a :: 0 <= a < |s.clients| ==> ClientOk(s.clients[a]);
  }

  /** The stamp, before the remainder, of the next REQUEST the client will send. */
  function NextStamp(c: Client.State): int {
    match c.phase case Idle => c.tempo + 1 case Waiting => c.tempo + 3 case Critical => c.tempo + 2
  }

  function Asks(steps: seq<Step>, a: nat): nat
    decreases |steps|
  {
    if steps == [] then 0 else (if steps[0] == Ask(a) then 1 else 0) + Asks(steps[1..], a)
  }

  /** Only sending a REQUEST moves the next stamp, and by three. */
  lemma StepMovesNextStamp(cfg: Config, s: Sys, step: Step, a: nat)
    requires Shape(cfg, s) && Enabled(cfg, s, step) && a < |s.clients|
    ensures a < |Apply(cfg, s, step).clients|
    ensures NextStamp(Apply(cfg, s, step).clients[a])
         == NextStamp(s.clients[a]) + if step == Ask(a) then 3 else 0
  {
    assert ClientOk(s.clients[a]);
    if step.Deliver? {
      assert MsgOk(cfg, s.net[step.i]);
    }
  }

  lemma {:induction false} RunMovesNextStamp(cfg: Config, s: Sys, steps: seq<Step>, a: nat)
    requires SafePids(cfg) && Inv(cfg, s) && a < |s.clients|
    ensures match After(cfg, s, steps)
            case None => true
            case Some(t) => a < |t.clients| && NextStamp(t.clients[a]) == NextStamp(s.clients[a]) + 3 * Asks(steps, a)
    decreases |steps|
  {
    if steps != [] && Enabled(cfg, s, steps[0]) {
      StepMovesNextStamp(cfg, s, steps[0], a);
      StepKeepsInv(cfg, s, steps[0]);
      RunMovesNextStamp(cfg, Apply(cfg, s, steps[0]), steps[1..], a);
    }
  }

  lemma AskSends(cfg: Config, s: Sys, a: nat)
    requires Enabled(cfg, s, Ask(a))
    ensures var net := Apply(cfg, s, Ask(a)).net;
            && net != []
            && net[|net| - 1]
               == ToServer(a, Dgram(-1, REQUEST_TOKEN, Rem(NextStamp(s.clients[a]), INT_MAX), cfg.pid[a]))
  {
  }

  lemma NextStampInRun(cfg: Config, steps: seq<Step>, s: Sys, a: nat)
    requires SafePids(cfg) && Reaches(cfg, steps, s) && a < |s.clients|
    ensures NextStamp(s.clients[a]) == 3 * Asks(steps, a) + 1
  {
    InitHolds(cfg);
    ClientCount(cfg, Init(cfg), steps);
    RunMovesNextStamp(cfg, Init(cfg), steps, a);
  }

  /** In the system too, the REQUEST a client sends after `k` earlier ones is stamped
      3k + 1, up to the remainder, whatever the other clients and the network do. */
  lemma RequestStampInRun(cfg: Config, steps: seq<Step>, s: Sys, a: nat)
    requires SafePids(cfg) && Reaches(cfg, steps, s) && Enabled(cfg, s, Ask(a))
    ensures var net := Apply(cfg, s, Ask(a)).net;
            && net != [] && net[|net| - 1].ToServer? && net[|net| - 1].from == a
            && net[|net| - 1].d.tempo == Rem(3 * Asks(steps, a) + 1, INT_MAX)
  {
    NextStampInRun(cfg, steps, s, a);
    AskSends(cfg, s, a);
  }
}
