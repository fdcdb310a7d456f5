/** What every step of the token protocol keeps. None of the main properties is inductive
    alone: the token is single because a free token means an empty queue and because each
    waiting client is in exactly one place. */
module Invariant {
  import opened CInt
  import opened Messages
  import opened QueueSpec
  import opened Sums
  import opened Protocol
  import Server
  import Client

  // What is counted.

  const ALLOWS: Msg -> nat := (m: Msg) => if IsAllow(m) then 1 else 0
  const RELEASES: Msg -> nat := (m: Msg) => if IsRelease(m) then 1 else 0
  const CRITICAL: Client.State -> nat := (c: Client.State) => if c.phase == Client.Critical then 1 else 0

  function RequestFrom(a: nat): Msg -> nat {
    (m: Msg) => if IsRequest(m) && m.from == a then 1 else 0
  }

  function AllowTo(a: nat): Msg -> nat {
    (m: Msg) => if IsAllow(m) && m.to == a then 1 else 0
  }

  function QueuedAt(a: nat): Item<nat> -> nat {
    (item: Item<nat>) => if item.addr == a then 1 else 0
  }

  /** Where the token is: free at the server, in a REPLY_ALLOW, with a client in its
      critical section, or in a RELEASE. */
  function Tokens(s: Sys): nat {
    (if s.server.flag == -1 then 1 else 0)
    + Sum(s.net, ALLOWS) + Sum(s.clients, CRITICAL) + Sum(s.net, RELEASES)
  }

  /** Where client `a` is: in its own code, or its request in flight, queued, or answered. */
  function Places(s: Sys, a: nat): nat
    requires a < |s.clients|
  {
    (if s.clients[a].phase != Client.Waiting then 1 else 0)
    + Sum(s.net, RequestFrom(a)) + Sum(s.server.fila, QueuedAt(a)) + Sum(s.net, AllowTo(a))
  }

  // The invariant, part by part.

  predicate MsgOk(cfg: Config, m: Msg) {
    match m
    case ToServer(from, d) =>
      && from < |cfg.pid| && d.pid == cfg.pid[from]
      && 0 <= d.tempo < INT_MAX && (d.cod == REQUEST_TOKEN || d.cod == RELEASE_TOKEN)
    case ToClient(to, d, whole) =>
      && to < |cfg.pid| && 0 <= d.tempo < INT_MAX
      && (if whole then d.cod == ACK && d.pid == cfg.pid[to] else d.cod == REPLY_ALLOW)
  }

  /** The clock of a client counts three ticks a round; it never gives up waiting. */
  predicate ClientOk(c: Client.State) {
    && c.aguardar == 0
    && 0 <= c.tempo <= INT_MAX
    && c.tempo % 3 == match c.phase case Idle => 0 case Waiting => 1 case Critical => 2
  }

  predicate ItemOk(cfg: Config, item: Item<nat>) {
    item.addr < |cfg.pid| && item.pid == cfg.pid[item.addr] && 0 <= item.tempo < INT_MAX
  }

  ghost predicate Shape(cfg: Config, s: Sys) {
    && |s.clients| == |cfg.pid|
    && 0 <= s.server.tempo <= INT_MAX
    && (forall m :: m in s.net ==> MsgOk(cfg, m))
    && (forall a :: 0 <= a < |s.clients| ==> ClientOk(s.clients[a]))
    && (forall item :: item in s.server.fila ==> ItemOk(cfg, item))
    && WellQueued(s.server.fila, cfg.n)
  }

  /** The token is in one place, and whoever has it is the holder on record, with the value
      on record (plus one on the way back). A free token leaves nobody waiting. */
  ghost predicate OneToken(cfg: Config, s: Sys)
    requires Shape(cfg, s)
  {
    && Tokens(s) <= 1 && (!cfg.lossy ==> Tokens(s) == 1)
    && (s.server.flag == -1 ==> s.server.fila == [])
    && (forall m :: m in s.net && IsAllow(m) ==>
          s.server.flag == NarrowChar(cfg.pid[m.to]) && m.d.rec == s.server.valor)
    && (forall m :: m in s.net && IsRelease(m) ==>
          s.server.flag == NarrowChar(cfg.pid[m.from]) && m.d.rec == s.server.valor + 1)
    && (forall a :: 0 <= a < |s.clients| && s.clients[a].phase == Client.Critical ==>
          s.server.flag == NarrowChar(cfg.pid[a]) && s.clients[a].resp.rec == s.server.valor)
  }

  /** Every client is in at most one place, and in exactly one when nothing gets lost. */
  ghost predicate OnePlaceEach(cfg: Config, s: Sys)
    requires Shape(cfg, s)
  {
    forall a :: 0 <= a < |s.clients| ==>
      Places(s, a) <= 1 && (Reliable(cfg) ==> Places(s, a) == 1)
  }

  /** With ordered delivery a RELEASE reaches the server before the next REQUEST of the
      same client, so a client whose RELEASE is in flight is not queued. */
  ghost predicate ReleaseFirst(cfg: Config, s: Sys) {
    cfg.fifo ==>
      && (forall i, j :: 0 <= i < j < |s.net| && IsRequest(s.net[i]) && IsRelease(s.net[j]) ==>
            s.net[i].from != s.net[j].from)
      && (forall m, item :: m in s.net && IsRelease(m) && item in s.server.fila ==>
            item.addr != m.from)
  }

  ghost predicate Inv(cfg: Config, s: Sys) {
    Shape(cfg, s) && OneToken(cfg, s) && OnePlaceEach(cfg, s) && ReleaseFirst(cfg, s)
  }

  // Counting facts.

  lemma NetAfterSend(net: seq<Msg>, m: Msg, f: Msg -> nat)
    ensures Sum(net + [m], f) == Sum(net, f) + f(m)
  {
    SumConcat(net, [m], f);
    assert [m][1..] == [];
  }

  /** The server answers with an ACK and at most one REPLY_ALLOW. */
  lemma SumOfAnswer(ack: Msg, allow: seq<Msg>, f: Msg -> nat)
    requires |allow| <= 1
    ensures Sum([ack] + allow, f) == f(ack) + if allow == [] then 0 else f(allow[0])
  {
    assert ([ack] + allow)[1..] == allow;
    assert allow != [] ==> allow[1..] == [];
  }

  lemma NetAfterDelivery(net: seq<Msg>, i: nat, ack: Msg, allow: seq<Msg>, f: Msg -> nat)
    requires i < |net| && |allow| <= 1
    ensures Sum(Without(net, i) + ([ack] + allow), f) + f(net[i])
         == Sum(net, f) + f(ack) + if allow == [] then 0 else f(allow[0])
  {
    SumWithout(net, i, f);
    SumConcat(Without(net, i), [ack] + allow, f);
    SumOfAnswer(ack, allow, f);
  }

  lemma QueueAfterInsere(q: seq<Item<nat>>, n: int, item: Item<nat>, f: Item<nat> -> nat)
    ensures Sum(Insere(q, n, item), f) == Sum(q, f) + if Accepts(q, n, item.pid) then f(item) else 0
    ensures forall x :: x in Insere(q, n, item) ==> x in q || x == item
  {
    if Accepts(q, n, item.pid) {
      var k := Position(q, item.tempo);
      SumConcat(q[..k] + [item], q[k..], f);
      SumConcat(q[..k], [item], f);
      assert [item][1..] == [];
      SumConcat(q[..k], q[k..], f);
      assert q == q[..k] + q[k..];
    }
  }

  lemma InNet(net: seq<Msg>, i: nat, sent: seq<Msg>)
    requires i < |net|
    ensures forall m :: m in Without(net, i) + sent ==> m in net || m in sent
    ensures forall m :: m in Without(net, i) ==> m in net
  {
  }

  // Shape.

  lemma InitHolds(cfg: Config)
    ensures Inv(cfg, Init(cfg))
  {
    var s := Init(cfg);
    assert forall a :: 0 <= a < |s.clients| ==> ClientOk(s.clients[a]);
    SumZero(s.clients, CRITICAL);
    assert Tokens(s) == 1;
    forall a | 0 <= a < |s.clients|
      ensures Places(s, a) == 1
    {
    }
    assert ReleaseFirst(cfg, s);
  }

  /** The moves of one client keep its clock in step with its phase. */
  lemma ClientMovesAreOk(c: Client.State, pid: int)
    requires ClientOk(c)
    ensures Client.CanAsk(c) ==>
              ClientOk(Client.Ask(c, pid).0) && 0 <= Client.Ask(c, pid).1.tempo < INT_MAX
    ensures Client.CanLeave(c) ==>
              ClientOk(Client.Leave(c, pid).0) && 0 <= Client.Leave(c, pid).1.tempo < INT_MAX
  {
  }

  lemma ReceivingIsOk(c: Client.State, pid: int, d: Dgram, whole: bool)
    requires ClientOk(c) && Client.CanReceive(c, d)
    requires if whole then d.cod == ACK && d.pid == pid else d.cod == REPLY_ALLOW
    ensures ClientOk(Client.Receive(c, pid, d, whole))
  {
  }

  lemma SendKeepsShape(cfg: Config, s: Sys, a: nat, c: Client.State, m: Msg)
    requires Shape(cfg, s) && a < |s.clients| && ClientOk(c) && MsgOk(cfg, m)
    ensures Shape(cfg, s.(clients := s.clients[a := c], net := s.net + [m]))
  {
  }

  lemma ClientMoveKeepsShape(cfg: Config, s: Sys, step: Step)
    requires Shape(cfg, s) && Enabled(cfg, s, step)
    requires step.Deliver? ==> s.net[step.i].ToClient?
    ensures Shape(cfg, Apply(cfg, s, step))
  {
    match step
    case Ask(a) =>
      var (c, d) := Client.Ask(s.clients[a], cfg.pid[a]);
      ClientMovesAreOk(s.clients[a], cfg.pid[a]);
      SendKeepsShape(cfg, s, a, c, ToServer(a, d));
    case Leave(a) =>
      var (c, d) := Client.Leave(s.clients[a], cfg.pid[a]);
      ClientMovesAreOk(s.clients[a], cfg.pid[a]);
      SendKeepsShape(cfg, s, a, c, ToServer(a, d));
    case Deliver(i) =>
      InNet(s.net, i, []);
      var m := s.net[i];
      assert MsgOk(cfg, m);
      ReceivingIsOk(s.clients[m.to], cfg.pid[m.to], m.d, m.whole);
    case Drop(i) =>
      InNet(s.net, i, []);
  }

  /** The server answers with well-formed datagrams and keeps its clock in range. */
  lemma HandleIsOk(cfg: Config, server: Server.State, from: nat, d: Dgram)
    requires MsgOk(cfg, ToServer(from, d)) && 0 <= server.tempo <= INT_MAX
    requires forall item :: item in server.fila ==> ItemOk(cfg, item)
    ensures var (next, sent) := Server.Handle(server, cfg.n, cfg.junk, from, d);
            && 0 <= next.tempo <= INT_MAX
            && forall m :: m in sent ==> MsgOk(cfg, m)
  {
    if server.fila != [] {
      assert ItemOk(cfg, server.fila[0]);
    }
  }

  lemma ServerMoveKeepsShape(cfg: Config, s: Sys, i: nat)
    requires Shape(cfg, s) && Enabled(cfg, s, Deliver(i)) && s.net[i].ToServer?
    ensures Shape(cfg, Apply(cfg, s, Deliver(i)))
  {
    var m := s.net[i];
    var (server, sent) := Server.Handle(s.server, cfg.n, cfg.junk, m.from, m.d);
    assert MsgOk(cfg, m);
    HandleIsOk(cfg, s.server, m.from, m.d);
    InNet(s.net, i, sent);
    var item := Item(m.d.pid, m.d.tempo, m.from);
    QueueAfterInsere(s.server.fila, cfg.n, item, QueuedAt(0));
    InsereKeepsWellQueued(s.server.fila, cfg.n, item);
  }
}
