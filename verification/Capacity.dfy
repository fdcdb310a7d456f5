/** The server ignores the result of `insere`. When is that harmless? */
module Capacity {
  import opened CInt
  import opened Wrappers
  import opened Messages
  import opened QueueSpec
  import opened Sums
  import opened Protocol
  import opened Invariant
  import opened InvariantSteps
  import opened Safety
  import Server
  import Client

  /** The run `steps` is possible and `step` after it is a refused insertion. */
  predicate RefusedAfter(cfg: Config, steps: seq<Step>, step: Step) {
    match After(cfg, Init(cfg), steps)
    case None => false
    case Some(s) => Enabled(cfg, s, step) && Rejects(cfg, s, step)
  }

  ghost predicate NeverRejects(cfg: Config) {
    forall steps, step :: !RefusedAfter(cfg, steps, step)
  }

  /** No request is ever refused exactly when there are at most as many clients as places
      in the queue, or one more if all datagrams arrive and each client's in order. */
  lemma NeverRejectsIff(cfg: Config)
    requires SafePids(cfg) && UniquePids(cfg) && cfg.n >= 0
    ensures NeverRejects(cfg) <==> FitsQueue(cfg)
  {
    if FitsQueue(cfg) {
      forall steps, step
        ensures !RefusedAfter(cfg, steps, step)
      {
        match After(cfg, Init(cfg), steps)
        case None =>
        case Some(s) =>
          ReachableInv(cfg, steps, s);
          if step.Deliver? && Enabled(cfg, s, step) {
            NothingRejected(cfg, s, step.i);
          }
      }
    } else {
      var steps, s, step := ARefusal(cfg);
      assert RefusedAfter(cfg, steps, step);
    }
  }

  /** Client 0 is in its critical section, clients 1 to k are queued, the others have not
      started, and only server datagrams are in flight. */
  ghost predicate Stage(cfg: Config, s: Sys, k: nat) {
    && k < |cfg.pid| == |s.clients| && k == |s.server.fila|
    && (forall m :: m in s.net ==> m.ToClient?)
    && s.server.flag == NarrowChar(cfg.pid[0])
    && s.clients[0].phase == Client.Critical && s.clients[0].tempo == 2 && s.clients[0].resp.rec == 30
    && (forall a :: k < a < |cfg.pid| ==> s.clients[a].phase == Client.Idle && s.clients[a].tempo == 0)
    && (forall item :: item in s.server.fila ==> 1 <= item.addr <= k && item.pid == cfg.pid[item.addr])
  }

  lemma FirstStage(cfg: Config) returns (steps: seq<Step>, s: Sys)
    requires |cfg.pid| > 0
    ensures Reaches(cfg, steps, s) && Stage(cfg, s, 0)
  {
    var granted := FirstRequestGranted(cfg, Init(cfg), 0);
    s := GrantTaken(cfg, granted, 1);
    steps := [Ask(0), Deliver(0)] + [Deliver(1)];
    AfterConcat(cfg, Init(cfg), [Ask(0), Deliver(0)], [Deliver(1)]);
    assert s.net == [granted.net[0]];
  }

  /** The next client asks, and its request is the only client datagram in flight. */
  lemma NextAsks(cfg: Config, s: Sys, k: nat) returns (t: Sys)
    requires Stage(cfg, s, k) && k + 1 < |cfg.pid|
    ensures After(cfg, s, [Ask(k + 1)]) == Some(t)
    ensures t.server == s.server && |t.net| == |s.net| + 1
    ensures t.net == s.net + [ToServer(k + 1, Dgram(-1, REQUEST_TOKEN, 1, cfg.pid[k + 1]))]
    ensures Enabled(cfg, t, Deliver(|s.net|))
    ensures |t.clients| == |s.clients| && t.clients == s.clients[k + 1 := t.clients[k + 1]]
  {
    AfterOne(cfg, s, Ask(k + 1));
    t := Apply(cfg, s, Ask(k + 1));
    var i := |s.net|;
    assert t.net[i].d.tempo == 1;
    assert FirstOfItsSender(t.net, i) by {
      assert forall j :: 0 <= j < i ==> t.net[j] == s.net[j] && s.net[j] in s.net;
    }
  }

  lemma NextStage(cfg: Config, s: Sys, k: nat) returns (t: Sys)
    requires UniquePids(cfg) && SafePids(cfg)
    requires Stage(cfg, s, k) && k + 1 < |cfg.pid| && k < cfg.n
    ensures After(cfg, s, [Ask(k + 1), Deliver(|s.net|)]) == Some(t)
    ensures Stage(cfg, t, k + 1)
  {
    var asked := NextAsks(cfg, s, k);
    var i := |s.net|;
    AfterOne(cfg, asked, Deliver(i));
    AfterConcat(cfg, s, [Ask(k + 1)], [Deliver(i)]);
    assert [Ask(k + 1)] + [Deliver(i)] == [Ask(k + 1), Deliver(i)];
    t := Apply(cfg, asked, Deliver(i));
    assert asked.net[i] == ToServer(k + 1, Dgram(-1, REQUEST_TOKEN, 1, cfg.pid[k + 1]));
    assert Without(asked.net, i) == s.net;
    var item := Item(cfg.pid[k + 1], 1, k + 1);
    QueueAfterInsere(s.server.fila, cfg.n, item, QueuedAt(0));
    assert !HasPid(s.server.fila, item.pid) by {
      forall j | 0 <= j < |s.server.fila|
        ensures s.server.fila[j].pid != item.pid
      {
        assert s.server.fila[j] in s.server.fila;
      }
    }
  }

  lemma {:induction false} Stages(cfg: Config, k: nat) returns (steps: seq<Step>, s: Sys)
    requires UniquePids(cfg) && SafePids(cfg) && k < |cfg.pid| && k <= cfg.n
    ensures Reaches(cfg, steps, s) && Stage(cfg, s, k)
  {
    if k == 0 {
      steps, s := FirstStage(cfg);
    } else {
      var before, r := Stages(cfg, k - 1);
      s := NextStage(cfg, r, k - 1);
      steps := before + [Ask(k), Deliver(|r.net|)];
      AfterConcat(cfg, Init(cfg), before, [Ask(k), Deliver(|r.net|)]);
    }
  }

  /** A run that ends in a refusal, whenever there are too many clients: the queue is
      filled, and then either another client asks, or the holder's next request overtakes
      its own release, or that release is lost. */
  lemma ARefusal(cfg: Config) returns (steps: seq<Step>, s: Sys, step: Step)
    requires UniquePids(cfg) && SafePids(cfg) && cfg.n >= 0 && !FitsQueue(cfg)
    ensures Reaches(cfg, steps, s) && Enabled(cfg, s, step) && Rejects(cfg, s, step)
  {
    var before, r := Stages(cfg, cfg.n);
    if cfg.n + 1 < |cfg.pid| {
      s := NextAsks(cfg, r, cfg.n);
      steps, step := before + [Ask(cfg.n + 1)], Deliver(|r.net|);
      AfterConcat(cfg, Init(cfg), before, [Ask(cfg.n + 1)]);
      assert s.net[|r.net|].d.cod == REQUEST_TOKEN;
    } else if !cfg.fifo {
      s := Overtaking(cfg, r);
      steps, step := before + [Leave(0), Ask(0)], Deliver(|r.net| + 1);
      AfterConcat(cfg, Init(cfg), before, [Leave(0), Ask(0)]);
    } else {
      s := LostRelease(cfg, r);
      steps, step := before + [Leave(0), Drop(|r.net|), Ask(0)], Deliver(|r.net|);
      AfterConcat(cfg, Init(cfg), before, [Leave(0), Drop(|r.net|), Ask(0)]);
    }
  }

  lemma Overtaking(cfg: Config, r: Sys) returns (s: Sys)
    requires cfg.n >= 0 && Stage(cfg, r, cfg.n) && !cfg.fifo && SafePids(cfg)
    ensures After(cfg, r, [Leave(0), Ask(0)]) == Some(s)
    ensures Enabled(cfg, s, Deliver(|r.net| + 1)) && Rejects(cfg, s, Deliver(|r.net| + 1))
  {
    var left := Apply(cfg, r, Leave(0));
    assert left.clients[0].phase == Client.Idle && left.clients[0].tempo == 3;
    s := Apply(cfg, left, Ask(0));
    AfterOne(cfg, left, Ask(0));
    assert [Leave(0), Ask(0)][1..] == [Ask(0)];
    assert s.net[|r.net| + 1] == ToServer(0, Dgram(-1, REQUEST_TOKEN, 4, cfg.pid[0]));
  }

  lemma LostRelease(cfg: Config, r: Sys) returns (s: Sys)
    requires cfg.n >= 0 && Stage(cfg, r, cfg.n) && cfg.lossy && SafePids(cfg)
    ensures After(cfg, r, [Leave(0), Drop(|r.net|), Ask(0)]) == Some(s)
    ensures Enabled(cfg, s, Deliver(|r.net|)) && Rejects(cfg, s, Deliver(|r.net|))
  {
    var i := |r.net|;
    var left := Apply(cfg, r, Leave(0));
    var dropped := Apply(cfg, left, Drop(i));
    assert Without(left.net, i) == r.net;
    assert dropped.clients[0].phase == Client.Idle && dropped.clients[0].tempo == 3;
    s := Apply(cfg, dropped, Ask(0));
    AfterOne(cfg, dropped, Ask(0));
    var steps := [Leave(0), Drop(i), Ask(0)];
    assert steps[1..][1..] == [Ask(0)] && steps[1..][0] == Drop(i);
    assert After(cfg, left, steps[1..]) == Some(s);
    assert s.net[i] == ToServer(0, Dgram(-1, REQUEST_TOKEN, 4, cfg.pid[0]));
    assert FirstOfItsSender(s.net, i) by {
      assert forall j :: 0 <= j < i ==> s.net[j] == r.net[j] && r.net[j] in r.net;
    }
  }
}
