/** Every step of the token protocol keeps the invariant. */
module InvariantSteps {
  import opened CInt
  import opened Messages
  import opened QueueSpec
  import opened Sums
  import opened Protocol
  import opened Invariant
  import Server
  import Client

  // The token.

  lemma AskKeepsToken(cfg: Config, s: Sys, a: nat)
    requires Shape(cfg, s) && OneToken(cfg, s) && Enabled(cfg, s, Ask(a))
    requires Shape(cfg, Apply(cfg, s, Ask(a)))
    ensures OneToken(cfg, Apply(cfg, s, Ask(a)))
  {
    var (c, d) := Client.Ask(s.clients[a], cfg.pid[a]);
    NetAfterSend(s.net, ToServer(a, d), ALLOWS);
    NetAfterSend(s.net, ToServer(a, d), RELEASES);
    SumUpdate(s.clients, a, c, CRITICAL);
  }

  lemma LeaveKeepsToken(cfg: Config, s: Sys, a: nat)
    requires Shape(cfg, s) && OneToken(cfg, s) && Enabled(cfg, s, Leave(a))
    requires Shape(cfg, Apply(cfg, s, Leave(a)))
    ensures OneToken(cfg, Apply(cfg, s, Leave(a)))
  {
    var (c, d) := Client.Leave(s.clients[a], cfg.pid[a]);
    NetAfterSend(s.net, ToServer(a, d), ALLOWS);
    NetAfterSend(s.net, ToServer(a, d), RELEASES);
    SumUpdate(s.clients, a, c, CRITICAL);
  }

  lemma ReceiveKeepsToken(cfg: Config, s: Sys, i: nat)
    requires Shape(cfg, s) && OneToken(cfg, s) && Enabled(cfg, s, Deliver(i)) && s.net[i].ToClient?
    requires Shape(cfg, Apply(cfg, s, Deliver(i)))
    ensures OneToken(cfg, Apply(cfg, s, Deliver(i)))
  {
    var m := s.net[i];
    assert MsgOk(cfg, m);
    var c := Client.Receive(s.clients[m.to], cfg.pid[m.to], m.d, m.whole);
    InNet(s.net, i, []);
    SumWithout(s.net, i, ALLOWS);
    SumWithout(s.net, i, RELEASES);
    SumUpdate(s.clients, m.to, c, CRITICAL);
  }

  lemma DropKeepsToken(cfg: Config, s: Sys, i: nat)
    requires Shape(cfg, s) && OneToken(cfg, s) && Enabled(cfg, s, Drop(i))
    requires Shape(cfg, Apply(cfg, s, Drop(i)))
    ensures OneToken(cfg, Apply(cfg, s, Drop(i)))
  {
    InNet(s.net, i, []);
    SumWithout(s.net, i, ALLOWS);
    SumWithout(s.net, i, RELEASES);
  }

  /** With the token accounted for elsewhere, no reply, release or critical section is. */
  lemma NoneElsewhere(s: Sys)
    requires Sum(s.net, ALLOWS) == 0 && Sum(s.clients, CRITICAL) == 0
    ensures forall m :: m in s.net ==> !IsAllow(m)
    ensures forall a :: 0 <= a < |s.clients| ==> s.clients[a].phase != Client.Critical
  {
    forall m | m in s.net
      ensures !IsAllow(m)
    {
      var i :| 0 <= i < |s.net| && s.net[i] == m;
      SumAtLeast(s.net, i, ALLOWS);
    }
    forall a | 0 <= a < |s.clients|
      ensures s.clients[a].phase != Client.Critical
    {
      SumAtLeast(s.clients, a, CRITICAL);
    }
  }

  lemma NoRelease(net: seq<Msg>)
    requires Sum(net, RELEASES) == 0
    ensures forall m :: m in net ==> !IsRelease(m)
  {
    forall m | m in net
      ensures !IsRelease(m)
    {
      var i :| 0 <= i < |net| && net[i] == m;
      SumAtLeast(net, i, RELEASES);
    }
  }

  /** A request moves a free token into a reply and touches no other; a release takes the
      token back, and passes it on when somebody waits. */
  lemma ServerMovesToken(cfg: Config, s: Sys, i: nat)
    requires SafePids(cfg) && Shape(cfg, s) && Enabled(cfg, s, Deliver(i)) && s.net[i].ToServer?
    requires IsRelease(s.net[i]) ==> s.server.flag != -1
    ensures Tokens(Apply(cfg, s, Deliver(i))) == Tokens(s)
  {
    var m := s.net[i];
    assert MsgOk(cfg, m);
    var (server, sent) := Server.Handle(s.server, cfg.n, cfg.junk, m.from, m.d);
    var ack, allow := sent[0], sent[1..];
    assert sent == [ack] + allow;
    NetAfterDelivery(s.net, i, ack, allow, ALLOWS);
    NetAfterDelivery(s.net, i, ack, allow, RELEASES);
    if s.server.fila != [] {
      assert ItemOk(cfg, s.server.fila[0]);
    }
  }

  lemma RequestKeepsToken(cfg: Config, s: Sys, i: nat)
    requires SafePids(cfg)
    requires Shape(cfg, s) && OneToken(cfg, s) && Enabled(cfg, s, Deliver(i)) && IsRequest(s.net[i])
    requires Shape(cfg, Apply(cfg, s, Deliver(i)))
    ensures OneToken(cfg, Apply(cfg, s, Deliver(i)))
  {
    var m := s.net[i];
    assert MsgOk(cfg, m);
    ServerMovesToken(cfg, s, i);
    InNet(s.net, i, Server.Handle(s.server, cfg.n, cfg.junk, m.from, m.d).1);
    if s.server.flag == -1 {
      NoneElsewhere(s);
      NoRelease(s.net);
    }
  }

  lemma ReleaseKeepsToken(cfg: Config, s: Sys, i: nat)
    requires SafePids(cfg)
    requires Shape(cfg, s) && OneToken(cfg, s) && Enabled(cfg, s, Deliver(i)) && IsRelease(s.net[i])
    requires Shape(cfg, Apply(cfg, s, Deliver(i)))
    ensures OneToken(cfg, Apply(cfg, s, Deliver(i)))
  {
    var m := s.net[i];
    assert MsgOk(cfg, m) && m in s.net;
    ServerMovesToken(cfg, s, i);
    InNet(s.net, i, Server.Handle(s.server, cfg.n, cfg.junk, m.from, m.d).1);
    SumWithout(s.net, i, RELEASES);
    NoneElsewhere(s);
    NoRelease(Without(s.net, i));
    if s.server.fila != [] {
      assert ItemOk(cfg, s.server.fila[0]);
    }
  }

  // Where each client is.

  lemma ClientSendKeepsPlaces(cfg: Config, s: Sys, step: Step)
    requires Shape(cfg, s) && OnePlaceEach(cfg, s) && Enabled(cfg, s, step)
    requires step.Ask? || step.Leave?
    requires Shape(cfg, Apply(cfg, s, step))
    ensures OnePlaceEach(cfg, Apply(cfg, s, step))
  {
    var m := ToServer(step.a, if step.Ask? then Client.Ask(s.clients[step.a], cfg.pid[step.a]).1
                                            else Client.Leave(s.clients[step.a], cfg.pid[step.a]).1);
    forall b | 0 <= b < |s.clients|
      ensures Places(Apply(cfg, s, step), b) == Places(s, b)
    {
      NetAfterSend(s.net, m, RequestFrom(b));
      NetAfterSend(s.net, m, AllowTo(b));
    }
  }

  lemma ReceiveKeepsPlaces(cfg: Config, s: Sys, i: nat)
    requires Shape(cfg, s) && OnePlaceEach(cfg, s) && Enabled(cfg, s, Deliver(i)) && s.net[i].ToClient?
    requires Shape(cfg, Apply(cfg, s, Deliver(i)))
    ensures OnePlaceEach(cfg, Apply(cfg, s, Deliver(i)))
  {
    assert MsgOk(cfg, s.net[i]);
    assert ClientOk(s.clients[s.net[i].to]);
    forall b | 0 <= b < |s.clients|
      ensures Places(Apply(cfg, s, Deliver(i)), b) == Places(s, b)
    {
      SumWithout(s.net, i, RequestFrom(b));
      SumWithout(s.net, i, AllowTo(b));
    }
  }

  lemma DropKeepsPlaces(cfg: Config, s: Sys, i: nat)
    requires Shape(cfg, s) && OnePlaceEach(cfg, s) && Enabled(cfg, s, Drop(i))
    requires Shape(cfg, Apply(cfg, s, Drop(i)))
    ensures OnePlaceEach(cfg, Apply(cfg, s, Drop(i)))
  {
    forall b | 0 <= b < |s.clients|
      ensures Places(Apply(cfg, s, Drop(i)), b) <= Places(s, b)
    {
      SumWithout(s.net, i, RequestFrom(b));
      SumWithout(s.net, i, AllowTo(b));
    }
  }

  lemma RequestKeepsPlace(cfg: Config, s: Sys, i: nat, b: nat)
    requires Shape(cfg, s) && Enabled(cfg, s, Deliver(i)) && IsRequest(s.net[i]) && b < |s.clients|
    ensures Places(Apply(cfg, s, Deliver(i)), b) <= Places(s, b)
    ensures !Rejects(cfg, s, Deliver(i)) ==> Places(Apply(cfg, s, Deliver(i)), b) == Places(s, b)
  {
    var m := s.net[i];
    var (server, sent) := Server.Handle(s.server, cfg.n, cfg.junk, m.from, m.d);
    var ack, allow := sent[0], sent[1..];
    assert sent == [ack] + allow;
    NetAfterDelivery(s.net, i, ack, allow, RequestFrom(b));
    NetAfterDelivery(s.net, i, ack, allow, AllowTo(b));
    QueueAfterInsere(s.server.fila, cfg.n, Item(m.d.pid, m.d.tempo, m.from), QueuedAt(b));
  }

  lemma RequestKeepsPlaces(cfg: Config, s: Sys, i: nat)
    requires Shape(cfg, s) && OnePlaceEach(cfg, s) && Enabled(cfg, s, Deliver(i)) && IsRequest(s.net[i])
    requires Reliable(cfg) ==> !Rejects(cfg, s, Deliver(i))
    requires Shape(cfg, Apply(cfg, s, Deliver(i)))
    ensures OnePlaceEach(cfg, Apply(cfg, s, Deliver(i)))
  {
    forall b | 0 <= b < |s.clients|
      ensures Places(Apply(cfg, s, Deliver(i)), b) <= Places(s, b)
      ensures !Rejects(cfg, s, Deliver(i)) ==> Places(Apply(cfg, s, Deliver(i)), b) == Places(s, b)
    {
      RequestKeepsPlace(cfg, s, i, b);
    }
  }

  lemma ReleaseKeepsPlace(cfg: Config, s: Sys, i: nat, b: nat)
    requires Enabled(cfg, s, Deliver(i)) && IsRelease(s.net[i]) && b < |s.clients|
    ensures Places(Apply(cfg, s, Deliver(i)), b) == Places(s, b)
  {
    var m := s.net[i];
    var (server, sent) := Server.Handle(s.server, cfg.n, cfg.junk, m.from, m.d);
    var ack, allow := sent[0], sent[1..];
    assert sent == [ack] + allow;
    NetAfterDelivery(s.net, i, ack, allow, RequestFrom(b));
    NetAfterDelivery(s.net, i, ack, allow, AllowTo(b));
  }

  lemma ReleaseKeepsPlaces(cfg: Config, s: Sys, i: nat)
    requires Shape(cfg, s) && OnePlaceEach(cfg, s) && Enabled(cfg, s, Deliver(i)) && IsRelease(s.net[i])
    requires Shape(cfg, Apply(cfg, s, Deliver(i)))
    ensures OnePlaceEach(cfg, Apply(cfg, s, Deliver(i)))
  {
    forall b | 0 <= b < |s.clients|
      ensures Places(Apply(cfg, s, Deliver(i)), b) == Places(s, b)
    {
      ReleaseKeepsPlace(cfg, s, i, b);
    }
  }

  // The order of a client's datagrams.

  lemma AskKeepsOrder(cfg: Config, s: Sys, a: nat)
    requires Shape(cfg, s) && ReleaseFirst(cfg, s) && Enabled(cfg, s, Ask(a))
    ensures ReleaseFirst(cfg, Apply(cfg, s, Ask(a)))
  {
    var m := ToServer(a, Client.Ask(s.clients[a], cfg.pid[a]).1);
    assert forall i :: 0 <= i < |s.net| ==> (s.net + [m])[i] == s.net[i];
  }

  /** A client in its critical section has no request in flight and is not queued. */
  lemma CriticalIsAlone(cfg: Config, s: Sys, a: nat)
    requires Shape(cfg, s) && OnePlaceEach(cfg, s)
    requires a < |s.clients| && s.clients[a].phase != Client.Waiting
    ensures forall i :: 0 <= i < |s.net| && IsRequest(s.net[i]) ==> s.net[i].from != a
    ensures forall item :: item in s.server.fila ==> item.addr != a
  {
    assert Places(s, a) <= 1;
    forall i | 0 <= i < |s.net| && IsRequest(s.net[i])
      ensures s.net[i].from != a
    {
      SumAtLeast(s.net, i, RequestFrom(a));
    }
    forall item | item in s.server.fila
      ensures item.addr != a
    {
      var j :| 0 <= j < |s.server.fila| && s.server.fila[j] == item;
      SumAtLeast(s.server.fila, j, QueuedAt(a));
    }
  }

  lemma LeaveKeepsOrder(cfg: Config, s: Sys, a: nat)
    requires Shape(cfg, s) && OnePlaceEach(cfg, s) && ReleaseFirst(cfg, s) && Enabled(cfg, s, Leave(a))
    ensures ReleaseFirst(cfg, Apply(cfg, s, Leave(a)))
  {
    var m := ToServer(a, Client.Leave(s.clients[a], cfg.pid[a]).1);
    CriticalIsAlone(cfg, s, a);
    assert forall i :: 0 <= i < |s.net| ==> (s.net + [m])[i] == s.net[i];
  }

  lemma RemovalKeepsOrder(net: seq<Msg>, i: nat, sent: seq<Msg>)
    requires i < |net| && (forall m :: m in sent ==> m.ToClient?)
    requires forall i, j :: 0 <= i < j < |net| && IsRequest(net[i]) && IsRelease(net[j]) ==>
               net[i].from != net[j].from
    ensures var rest := Without(net, i) + sent;
            forall i, j :: 0 <= i < j < |rest| && IsRequest(rest[i]) && IsRelease(rest[j]) ==>
              rest[i].from != rest[j].from
  {
    var rest := Without(net, i) + sent;
    forall k | |net| - 1 <= k < |rest|
      ensures rest[k].ToClient?
    {
      assert rest[k] == sent[k - (|net| - 1)];
    }
    forall j, k | 0 <= j < k < |rest| && IsRequest(rest[j]) && IsRelease(rest[k])
      ensures rest[j].from != rest[k].from
    {
      assert rest[j] == net[if j < i then j else j + 1];
      assert rest[k] == net[if k < i then k else k + 1];
    }
  }

  lemma ReceiveOrDropKeepsOrder(cfg: Config, s: Sys, step: Step)
    requires Shape(cfg, s) && ReleaseFirst(cfg, s) && Enabled(cfg, s, step)
    requires step.Drop? || (step.Deliver? && s.net[step.i].ToClient?)
    ensures ReleaseFirst(cfg, Apply(cfg, s, step))
  {
    if cfg.fifo {
      RemovalKeepsOrder(s.net, step.i, []);
      assert Without(s.net, step.i) + [] == Without(s.net, step.i);
      InNet(s.net, step.i, []);
    }
  }

  lemma ServerMoveKeepsOrder(cfg: Config, s: Sys, i: nat)
    requires Shape(cfg, s) && ReleaseFirst(cfg, s) && Enabled(cfg, s, Deliver(i)) && s.net[i].ToServer?
    ensures ReleaseFirst(cfg, Apply(cfg, s, Deliver(i)))
  {
    if cfg.fifo {
      var m := s.net[i];
      var (server, sent) := Server.Handle(s.server, cfg.n, cfg.junk, m.from, m.d);
      RemovalKeepsOrder(s.net, i, sent);
      InNet(s.net, i, sent);
      var item := Item(m.d.pid, m.d.tempo, m.from);
      QueueAfterInsere(s.server.fila, cfg.n, item, QueuedAt(0));
      if IsRequest(m) {
        NoReleaseBehind(cfg, s, i);
      }
    }
  }

  /** With ordered delivery, when a REQUEST arrives no RELEASE of its client is in flight. */
  lemma NoReleaseBehind(cfg: Config, s: Sys, i: nat)
    requires cfg.fifo && ReleaseFirst(cfg, s) && Enabled(cfg, s, Deliver(i)) && IsRequest(s.net[i])
    ensures forall m :: m in s.net && IsRelease(m) ==> m.from != s.net[i].from
  {
    forall m | m in s.net && IsRelease(m)
      ensures m.from != s.net[i].from
    {
      var j :| 0 <= j < |s.net| && s.net[j] == m;
      assert j < i || j > i;
    }
  }

  // Capacity.

  /** Someone holds the token when it is not free, and the holder is not queued. */
  lemma HolderIsNotQueued(cfg: Config, s: Sys, i: nat) returns (h: nat)
    requires Inv(cfg, s) && Reliable(cfg) && cfg.fifo && s.server.flag != -1
    requires Enabled(cfg, s, Deliver(i)) && IsRequest(s.net[i])
    ensures h < |s.clients| && h != s.net[i].from
    ensures forall item :: item in s.server.fila ==> item.addr != h
  {
    assert Tokens(s) == 1;
    var b := s.net[i].from;
    if Sum(s.clients, CRITICAL) > 0 {
      h := SumWitness(s.clients, CRITICAL);
      CriticalIsAlone(cfg, s, h);
    } else if Sum(s.net, ALLOWS) > 0 {
      var j := SumWitness(s.net, ALLOWS);
      h := s.net[j].to;
      assert MsgOk(cfg, s.net[j]);
      AnsweredIsAlone(cfg, s, j);
    } else {
      var j := SumWitness(s.net, RELEASES);
      h := s.net[j].from;
      assert MsgOk(cfg, s.net[j]);
      assert s.net[j] in s.net;
      NoReleaseBehind(cfg, s, i);
    }
  }

  lemma AnsweredIsAlone(cfg: Config, s: Sys, j: nat)
    requires Shape(cfg, s) && OnePlaceEach(cfg, s) && j < |s.net| && IsAllow(s.net[j])
    ensures s.net[j].to < |s.clients| && s.clients[s.net[j].to].phase == Client.Waiting
    ensures forall i :: 0 <= i < |s.net| && IsRequest(s.net[i]) ==> s.net[i].from != s.net[j].to
    ensures forall item :: item in s.server.fila ==> item.addr != s.net[j].to
  {
    var h := s.net[j].to;
    assert MsgOk(cfg, s.net[j]);
    assert Places(s, h) <= 1;
    SumAtLeast(s.net, j, AllowTo(h));
    forall i | 0 <= i < |s.net| && IsRequest(s.net[i])
      ensures s.net[i].from != h
    {
      SumAtLeast(s.net, i, RequestFrom(h));
    }
    forall item | item in s.server.fila
      ensures item.addr != h
    {
      var k :| 0 <= k < |s.server.fila| && s.server.fila[k] == item;
      SumAtLeast(s.server.fila, k, QueuedAt(h));
    }
  }

  /** A client whose request is in flight is not queued. */
  lemma RequesterIsNotQueued(cfg: Config, s: Sys, i: nat)
    requires Shape(cfg, s) && OnePlaceEach(cfg, s) && i < |s.net| && IsRequest(s.net[i])
    ensures s.net[i].from < |s.clients|
    ensures forall item :: item in s.server.fila ==> item.addr != s.net[i].from
  {
    var b := s.net[i].from;
    assert MsgOk(cfg, s.net[i]);
    assert Places(s, b) <= 1;
    SumAtLeast(s.net, i, RequestFrom(b));
    forall item | item in s.server.fila
      ensures item.addr != b
    {
      var k :| 0 <= k < |s.server.fila| && s.server.fila[k] == item;
      SumAtLeast(s.server.fila, k, QueuedAt(b));
    }
  }

  function Addresses(q: seq<Item<nat>>): (r: seq<nat>)
    ensures |r| == |q| && forall k :: 0 <= k < |q| ==> r[k] == q[k].addr
  {
    seq(|q|, k requires 0 <= k < |q| => q[k].addr)
  }

  /** The queued addresses are distinct and lie in `room`. */
  lemma QueueFits(cfg: Config, q: seq<Item<nat>>, room: set<nat>)
    requires QueueSpec.DistinctPids(q) && (forall item :: item in q ==> ItemOk(cfg, item))
    requires forall item :: item in q ==> item.addr in room
    ensures |q| <= |room|
  {
    forall i, j | 0 <= i < j < |q|
      ensures q[i].addr != q[j].addr
    {
      assert ItemOk(cfg, q[i]) && ItemOk(cfg, q[j]);
    }
    Pigeonhole(Addresses(q), room);
  }

  lemma NothingRejected(cfg: Config, s: Sys, i: nat)
    requires Inv(cfg, s) && UniquePids(cfg) && FitsQueue(cfg) && Enabled(cfg, s, Deliver(i))
    ensures !Rejects(cfg, s, Deliver(i))
  {
    if IsRequest(s.net[i]) && s.server.flag != -1 {
      var b := s.net[i].from;
      assert MsgOk(cfg, s.net[i]);
      RequesterIsNotQueued(cfg, s, i);
      assert !HasPid(s.server.fila, s.net[i].d.pid) by {
        assert forall k :: 0 <= k < |s.server.fila| ==> ItemOk(cfg, s.server.fila[k]);
      }
      var room := Below(|cfg.pid|) - {b};
      if cfg.fifo && !cfg.lossy {
        var h := HolderIsNotQueued(cfg, s, i);
        room := room - {h};
      }
      QueueFits(cfg, s.server.fila, room);
    }
  }

  /** The step theorem. */
  lemma StepKeepsInv(cfg: Config, s: Sys, step: Step)
    requires SafePids(cfg) && Inv(cfg, s) && Enabled(cfg, s, step)
    ensures Inv(cfg, Apply(cfg, s, step))
  {
    match step
    case Ask(a) =>
      ClientMoveKeepsShape(cfg, s, step);
      AskKeepsToken(cfg, s, a);
      ClientSendKeepsPlaces(cfg, s, step);
      AskKeepsOrder(cfg, s, a);
    case Leave(a) =>
      ClientMoveKeepsShape(cfg, s, step);
      LeaveKeepsToken(cfg, s, a);
      ClientSendKeepsPlaces(cfg, s, step);
      LeaveKeepsOrder(cfg, s, a);
    case Drop(i) =>
      ClientMoveKeepsShape(cfg, s, step);
      DropKeepsToken(cfg, s, i);
      DropKeepsPlaces(cfg, s, i);
      ReceiveOrDropKeepsOrder(cfg, s, step);
    case Deliver(i) =>
      if s.net[i].ToClient? {
        ClientMoveKeepsShape(cfg, s, step);
        ReceiveKeepsToken(cfg, s, i);
        ReceiveKeepsPlaces(cfg, s, i);
        ReceiveOrDropKeepsOrder(cfg, s, step);
      } else {
        ServerDeliveryKeepsInv(cfg, s, i);
      }
  }

  lemma ServerDeliveryKeepsInv(cfg: Config, s: Sys, i: nat)
    requires SafePids(cfg) && Inv(cfg, s) && Enabled(cfg, s, Deliver(i)) && s.net[i].ToServer?
    ensures Inv(cfg, Apply(cfg, s, Deliver(i)))
  {
    assert MsgOk(cfg, s.net[i]);
    ServerMoveKeepsShape(cfg, s, i);
    ServerMoveKeepsOrder(cfg, s, i);
    if IsRequest(s.net[i]) {
      RequestKeepsToken(cfg, s, i);
      if Reliable(cfg) {
        NothingRejected(cfg, s, i);
      }
      RequestKeepsPlaces(cfg, s, i);
    } else {
      ReleaseKeepsToken(cfg, s, i);
      ReleaseKeepsPlaces(cfg, s, i);
    }
  }
}
