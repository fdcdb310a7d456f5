/** What single steps of the token protocol do, on their own terms, and what follows over
    whole runs: every datagram is acknowledged once to its sender, and the queue serves the
    clients in the order of the stamps of the requests they sent. */
module Turns {
  import opened CInt
  import opened Wrappers
  import opened Messages
  import opened QueueSpec
  import opened Sums
  import opened Protocol
  import opened Invariant
  import opened InvariantSteps
  import opened Safety
  import opened Programs
  import Server
  import Client

  // Single steps.

  /** A delivery to the server takes one datagram from the network, adds what the server
      sends, and is a turn of the server; no client changes. */
  lemma DeliveryIsATurn(cfg: Config, s: Sys, i: nat)
    requires Enabled(cfg, s, Deliver(i)) && s.net[i].ToServer? && Sorted(s.server.fila)
    ensures var t, rest := Apply(cfg, s, Deliver(i)), |s.net| - 1;
            && t.clients == s.clients
            && rest < |t.net| && t.net[..rest] == Without(s.net, i)
            && Server.Turn(s.server, t.server, cfg.n, cfg.junk, s.net[i].from, s.net[i].d, t.net[rest..])
  {
    var m := s.net[i];
    var (server, sent) := Server.Handle(s.server, cfg.n, cfg.junk, m.from, m.d);
    Server.HandleIsATurn(s.server, cfg.n, cfg.junk, m.from, m.d);
    assert (Without(s.net, i) + sent)[|s.net| - 1..] == sent;
  }

  /** A REQUEST adds one datagram with the next tick of the client's clock, and a RELEASE
      one with the tick after that and the value received plus one. */
  lemma ClientSends(cfg: Config, s: Sys, a: nat)
    ensures Enabled(cfg, s, Ask(a)) ==>
              var c, t := s.clients[a], Apply(cfg, s, Ask(a));
              && t.server == s.server
              && t.net == s.net + [ToServer(a, Dgram(-1, REQUEST_TOKEN, Rem(c.tempo + 1, INT_MAX), cfg.pid[a]))]
              && t.clients == s.clients[a := Client.State(Client.Waiting, c.tempo + 1, c.aguardar, c.resp)]
    ensures Enabled(cfg, s, Leave(a)) ==>
              var c, t := s.clients[a], Apply(cfg, s, Leave(a));
              var rec := c.resp.rec + 1;
              && t.server == s.server
              && t.net == s.net + [ToServer(a, Dgram(rec, RELEASE_TOKEN, Rem(c.tempo + 1, INT_MAX), cfg.pid[a]))]
              && t.clients == s.clients[a := Client.State(Client.Idle, c.tempo + 1, 0, c.resp.(rec := rec))]
  {
  }

  /** A datagram for a client goes into its buffer, a short one over `rec` and `cod` only. A
      REPLY_ALLOW takes the client into its critical section with one tick of its clock; an
      ACK for another PID counts, and past three ends the wait; anything else leaves it
      waiting. */
  lemma ClientReceives(cfg: Config, s: Sys, i: nat)
    requires Enabled(cfg, s, Deliver(i)) && s.net[i].ToClient?
    ensures var m, t := s.net[i], Apply(cfg, s, Deliver(i));
            var c, next := s.clients[m.to], t.clients[m.to];
            var foreign := m.d.cod == ACK && (if m.whole then m.d.pid else c.resp.pid) != cfg.pid[m.to];
            && t.server == s.server && t.net == Without(s.net, i)
            && t.clients == s.clients[m.to := next]
            && next.resp.rec == m.d.rec && next.resp.cod == m.d.cod
            && next.resp.tempo == (if m.whole then m.d.tempo else c.resp.tempo)
            && next.resp.pid == (if m.whole then m.d.pid else c.resp.pid)
            && (m.d.cod == REPLY_ALLOW ==>
                  next.phase == Client.Critical && next.tempo == Rem(c.tempo + 1, INT_MAX))
            && (m.d.cod != REPLY_ALLOW ==> next.tempo == c.tempo)
            && (m.d.cod != REPLY_ALLOW && !foreign ==> next.phase == Client.Waiting)
            && (foreign ==>
                  && next.aguardar == NarrowChar(c.aguardar + 1)
                  && next.phase == if next.aguardar > 3 then Client.Idle else Client.Waiting)
            && (!foreign ==> next.aguardar == c.aguardar)
  {
  }

  // The stamps that the queue orders by.

  /** The stamp on the last REQUEST datagram that client `a` put on the network along a run,
      `last` before it. */
  function LastRequest(cfg: Config, s: Sys, steps: seq<Step>, a: nat, last: int): int
    decreases |steps|
  {
    if steps != [] && Enabled(cfg, s, steps[0]) then
      var t := Apply(cfg, s, steps[0]);
      LastRequest(cfg, t, steps[1..], a, if steps[0] == Ask(a) then t.net[|s.net|].d.tempo else last)
    else last
  }

  /** Client `a`'s request, in flight or queued, is stamped `last`. */
  ghost predicate StampedBy(s: Sys, a: nat, last: int) {
    && (forall m :: m in s.net && IsRequest(m) && m.from == a ==> m.d.tempo == last)
    && (forall item :: item in s.server.fila && item.addr == a ==> item.tempo == last)
  }

  lemma DeliveryKeepsStamp(cfg: Config, s: Sys, i: nat, a: nat, last: int)
    requires Inv(cfg, s) && Enabled(cfg, s, Deliver(i)) && StampedBy(s, a, last)
    ensures StampedBy(Apply(cfg, s, Deliver(i)), a, last)
  {
    var m, t := s.net[i], Apply(cfg, s, Deliver(i));
    InNet(s.net, i, []);
    assert MsgOk(cfg, m) && m in s.net;
    if m.ToServer? {
      DeliveryIsATurn(cfg, s, i);
      var sent := t.net[|s.net| - 1..];
      assert t.net == Without(s.net, i) + sent;
      Server.TurnMembers(s.server, t.server, cfg.n, cfg.junk, m.from, m.d, sent);
    }
  }

  lemma StepKeepsStamp(cfg: Config, s: Sys, step: Step, a: nat, last: int)
    requires Inv(cfg, s) && Enabled(cfg, s, step) && StampedBy(s, a, last)
    ensures var t := Apply(cfg, s, step);
            && (step == Ask(a) ==> |t.net| > |s.net|)
            && StampedBy(t, a, if step == Ask(a) then t.net[|s.net|].d.tempo else last)
  {
    match step
    case Ask(b) =>
      ClientSends(cfg, s, b);
      if b == a {
        CriticalIsAlone(cfg, s, a);
        assert forall m :: m in s.net && IsRequest(m) ==> m.from != a;
      }
    case Leave(b) =>
      ClientSends(cfg, s, b);
    case Drop(i) =>
      InNet(s.net, i, []);
    case Deliver(i) =>
      DeliveryKeepsStamp(cfg, s, i, a, last);
  }

  lemma {:induction false} RunKeepsStamp(cfg: Config, s: Sys, steps: seq<Step>, a: nat, last: int)
    requires SafePids(cfg) && Inv(cfg, s) && StampedBy(s, a, last)
    ensures match After(cfg, s, steps)
            case None => true
            case Some(t) => StampedBy(t, a, LastRequest(cfg, s, steps, a, last))
    decreases |steps|
  {
    if steps != [] && Enabled(cfg, s, steps[0]) {
      StepKeepsStamp(cfg, s, steps[0], a, last);
      StepKeepsInv(cfg, s, steps[0]);
      var t := Apply(cfg, s, steps[0]);
      RunKeepsStamp(cfg, t, steps[1..], a, if steps[0] == Ask(a) then t.net[|s.net|].d.tempo else last);
    }
  }

  /** A queued item carries the stamp of the last REQUEST its client sent. */
  lemma QueuedUnderRequestStamp(cfg: Config, steps: seq<Step>, s: Sys, item: Item<nat>)
    requires SafePids(cfg) && Reaches(cfg, steps, s) && item in s.server.fila
    ensures item.tempo == LastRequest(cfg, Init(cfg), steps, item.addr, 0)
  {
    InitHolds(cfg);
    RunKeepsStamp(cfg, Init(cfg), steps, item.addr, 0);
  }

  /** Whoever is granted the token while client `w` is queued sent a REQUEST stamped no later
      than the one `w` sent. */
  lemma GrantsInRequestOrder(cfg: Config, steps: seq<Step>, s: Sys, i: nat, w: nat)
    requires SafePids(cfg) && Reaches(cfg, steps, s) && Enabled(cfg, s, Deliver(i))
    requires GrantedBy(s, Deliver(i)).Some? && exists item :: item in s.server.fila && item.addr == w
    ensures LastRequest(cfg, Init(cfg), steps, GrantedBy(s, Deliver(i)).value, 0)
         <= LastRequest(cfg, Init(cfg), steps, w, 0)
  {
    var waiter :| waiter in s.server.fila && waiter.addr == w;
    GrantsInTimeOrder(cfg, steps, s, i, waiter);
    QueuedUnderRequestStamp(cfg, steps, s, waiter);
    QueuedUnderRequestStamp(cfg, steps, s, s.server.fila[0]);
  }

  // Acknowledgements.

  function FromClient(a: nat): Msg -> nat {
    (m: Msg) => if m.ToServer? && m.from == a then 1 else 0
  }

  function AckFor(a: nat): Msg -> nat {
    (m: Msg) => if m.ToClient? && m.whole && m.to == a then 1 else 0
  }

  /** The ACKs among received datagrams: all that travel whole. */
  function Acks(inbox: seq<(Dgram, bool)>): nat {
    if inbox == [] then 0 else (if inbox[0].1 then 1 else 0) + Acks(inbox[1..])
  }

  lemma AcksOfFirst(first: seq<(Dgram, bool)>, rest: seq<(Dgram, bool)>)
    requires |first| <= 1
    ensures Acks(first + rest) == Acks(first) + Acks(rest)
  {
    if first == [] {
      assert first + rest == rest;
    } else {
      assert (first + rest)[1..] == rest;
    }
  }

  /** A client's datagrams still to be acknowledged to it. */
  function Unacknowledged(s: Sys, a: nat): nat {
    Sum(s.net, FromClient(a)) + Sum(s.net, AckFor(a))
  }

  lemma StepKeepsAcks(cfg: Config, s: Sys, step: Step, a: nat)
    requires Enabled(cfg, s, step) && a < |s.clients| == |cfg.pid|
    ensures var before := Unacknowledged(s, a) + |SentBy(cfg, s, step, a)|;
            var after := Unacknowledged(Apply(cfg, s, step), a) + Acks(ReceivedBy(s, step, a));
            after <= before && (!step.Drop? ==> after == before)
  {
    match step
    case Ask(b) =>
      NetAfterSend(s.net, ToServer(b, Client.Ask(s.clients[b], cfg.pid[b]).1), FromClient(a));
      NetAfterSend(s.net, ToServer(b, Client.Ask(s.clients[b], cfg.pid[b]).1), AckFor(a));
    case Leave(b) =>
      NetAfterSend(s.net, ToServer(b, Client.Leave(s.clients[b], cfg.pid[b]).1), FromClient(a));
      NetAfterSend(s.net, ToServer(b, Client.Leave(s.clients[b], cfg.pid[b]).1), AckFor(a));
    case Drop(i) =>
      SumWithout(s.net, i, FromClient(a));
      SumWithout(s.net, i, AckFor(a));
    case Deliver(i) =>
      if s.net[i].ToClient? {
        SumWithout(s.net, i, FromClient(a));
        SumWithout(s.net, i, AckFor(a));
      } else {
        ServerAcknowledges(cfg, s, i, a);
      }
  }

  lemma ServerAcknowledges(cfg: Config, s: Sys, i: nat, a: nat)
    requires Enabled(cfg, s, Deliver(i)) && s.net[i].ToServer?
    ensures Unacknowledged(Apply(cfg, s, Deliver(i)), a) == Unacknowledged(s, a)
  {
    var m := s.net[i];
    var (server, sent) := Server.Handle(s.server, cfg.n, cfg.junk, m.from, m.d);
    assert sent == [sent[0]] + sent[1..];
    NetAfterDelivery(s.net, i, sent[0], sent[1..], FromClient(a));
    NetAfterDelivery(s.net, i, sent[0], sent[1..], AckFor(a));
  }

  lemma {:induction false} RunKeepsAcks(cfg: Config, s: Sys, steps: seq<Step>, a: nat)
    requires a < |s.clients| == |cfg.pid|
    ensures match After(cfg, s, steps)
            case None => true
            case Some(t) =>
              var before := Unacknowledged(s, a) + |ClientOutbox(cfg, s, steps, a)|;
              var after := Unacknowledged(t, a) + Acks(ClientInbox(cfg, s, steps, a));
              after <= before && (!cfg.lossy ==> after == before)
    decreases |steps|
  {
    if steps != [] && Enabled(cfg, s, steps[0]) {
      var t := Apply(cfg, s, steps[0]);
      StepKeepsAcks(cfg, s, steps[0], a);
      AcksOfFirst(ReceivedBy(s, steps[0], a), ClientInbox(cfg, t, steps[1..], a));
      RunKeepsAcks(cfg, t, steps[1..], a);
    }
  }

  /** Every datagram of a client is acknowledged exactly once, to that client: what it has
      sent is what is in flight from it, plus the ACKs in flight to it, plus the ACKs it
      has received; never more ACKs than datagrams when some are lost. */
  lemma AckConservation(cfg: Config, steps: seq<Step>, s: Sys, a: nat)
    requires Reaches(cfg, steps, s) && a < |cfg.pid|
    ensures var acknowledged := Unacknowledged(s, a) + Acks(ClientInbox(cfg, Init(cfg), steps, a));
            var sent := |ClientOutbox(cfg, Init(cfg), steps, a)|;
            acknowledged <= sent && (!cfg.lossy ==> acknowledged == sent)
  {
    RunKeepsAcks(cfg, Init(cfg), steps, a);
  }

  // The receive buffer.

  /** The last datagram received whole, `buffer` before any. */
  function LastWhole(inbox: seq<(Dgram, bool)>, buffer: Dgram): Dgram
    decreases |inbox|
  {
    if inbox == [] then buffer else LastWhole(inbox[1..], if inbox[0].1 then inbox[0].0 else buffer)
  }

  lemma {:induction false} RunKeepsBuffer(cfg: Config, s: Sys, steps: seq<Step>, a: nat, buffer: Dgram)
    requires a < |s.clients| == |cfg.pid|
    requires s.clients[a].resp.pid == buffer.pid && s.clients[a].resp.tempo == buffer.tempo
    ensures match After(cfg, s, steps)
            case None => true
            case Some(t) =>
              var last := LastWhole(ClientInbox(cfg, s, steps, a), buffer);
              a < |t.clients| && t.clients[a].resp.pid == last.pid && t.clients[a].resp.tempo == last.tempo
    decreases |steps|
  {
    if steps != [] && Enabled(cfg, s, steps[0]) {
      var t := Apply(cfg, s, steps[0]);
      var first, rest := ReceivedBy(s, steps[0], a), ClientInbox(cfg, t, steps[1..], a);
      assert (first + rest)[|first|..] == rest;
      RunKeepsBuffer(cfg, t, steps[1..], a, if first != [] && first[0].1 then first[0].0 else buffer);
    }
  }

  /** The short REPLY_ALLOW does not touch the `PID` and `tempo` fields of the buffer: in any
      reachable state they are those of the last datagram received whole. */
  lemma BufferKeepsLastWhole(cfg: Config, steps: seq<Step>, s: Sys, a: nat)
    requires Reaches(cfg, steps, s) && a < |cfg.pid|
    ensures var last := LastWhole(ClientInbox(cfg, Init(cfg), steps, a), Init(cfg).clients[a].resp);
            a < |s.clients| && s.clients[a].resp.pid == last.pid && s.clients[a].resp.tempo == last.tempo
  {
    RunKeepsBuffer(cfg, Init(cfg), steps, a, Init(cfg).clients[a].resp);
  }
}
