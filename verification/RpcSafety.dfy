/** When the RPC variant is exclusive, and that its wait loop is then well defined. */
module RpcSafety {
  import opened CInt
  import opened Wrappers
  import opened QueueSpec
  import opened Rpc
  import opened RpcProtocol
  import Sums

  predicate Queued(c: Client) {
    c.phase.Waiting? || Past(c)
  }

  /** Until its reply comes, a client's clock is the stamp of its call. */
  predicate InStepWithCall(c: Client) {
    match c.phase case Calling(stamp) => c.tempo == stamp case Waiting(stamp) => c.tempo == stamp case _ => true
  }

  /** The queued PIDs belong to waiting or answered callers, an answered caller is the
      head, and with enough room every waiting caller is queued. */
  ghost predicate Inv(cfg: Config, s: Sys) {
    && |s.clients| == |cfg.pid|
    && WellQueued(s.server.fila, cfg.n)
    && (forall i :: 0 <= i < |s.clients| ==> InStepWithCall(s.clients[i]))
    && (forall item :: item in s.server.fila ==> OwnedByQueued(cfg, s, item.pid))
    && (forall i :: 0 <= i < |s.clients| && Past(s.clients[i]) ==> IsHead(s.server, cfg.pid[i]))
    && (|cfg.pid| <= cfg.n ==>
          forall i :: 0 <= i < |s.clients| && s.clients[i].phase.Waiting? ==>
            HasPid(s.server.fila, cfg.pid[i]))
  }

  ghost predicate OwnedByQueued(cfg: Config, s: Sys, pid: int)
    requires |s.clients| == |cfg.pid|
  {
    exists i :: 0 <= i < |s.clients| && cfg.pid[i] == pid && Queued(s.clients[i])
  }

  lemma InvExcludes(cfg: Config, s: Sys)
    requires UniquePids(cfg) && Inv(cfg, s)
    ensures MutualExclusion(s)
  {
  }

  /** A caller whose request has not arrived is not in the queue, and there is room. */
  lemma ArrivalAccepted(cfg: Config, s: Sys, i: nat)
    requires UniquePids(cfg) && Inv(cfg, s) && Enabled(cfg, s, Arrive(i))
    ensures !HasPid(s.server.fila, cfg.pid[i])
    ensures |cfg.pid| <= cfg.n ==> Accepts(s.server.fila, cfg.n, cfg.pid[i])
  {
    var q := s.server.fila;
    forall k | 0 <= k < |q|
      ensures q[k].pid in cfg.pid && q[k].pid != cfg.pid[i]
    {
      assert OwnedByQueued(cfg, s, q[k].pid);
    }
    var pids := seq(|q|, k requires 0 <= k < |q| => q[k].pid);
    var all := set x | x in cfg.pid;
    Sums.ElementsOfSeq(cfg.pid);
    Sums.Pigeonhole(pids, all - {cfg.pid[i]});
    assert cfg.pid[i] in all;
  }

  lemma InsereMembers(q: seq<Item<()>>, n: int, item: Item<()>)
    ensures forall x :: x in Insere(q, n, item) ==> x in q || (x == item && Accepts(q, n, item.pid))
    ensures forall pid :: HasPid(q, pid) ==> HasPid(Insere(q, n, item), pid)
    ensures Accepts(q, n, item.pid) ==> HasPid(Insere(q, n, item), item.pid)
  {
    if Accepts(q, n, item.pid) {
      var k := Position(q, item.tempo);
      var r := Insert(q, item);
      assert r[k] == item;
      forall pid | HasPid(q, pid)
        ensures HasPid(r, pid)
      {
        var j :| 0 <= j < |q| && q[j].pid == pid;
        InsertMovesByOne(q, item, j);
        assert r[if j < k then j else j + 1].pid == pid;
      }
    }
  }

  lemma OwnersStay(cfg: Config, s: Sys, t: Sys, pid: int)
    requires |s.clients| == |t.clients| == |cfg.pid| && OwnedByQueued(cfg, s, pid)
    requires forall i :: 0 <= i < |s.clients| && Queued(s.clients[i]) && cfg.pid[i] == pid ==> Queued(t.clients[i])
    ensures OwnedByQueued(cfg, t, pid)
  {
    var i :| 0 <= i < |s.clients| && cfg.pid[i] == pid && Queued(s.clients[i]);
    assert Queued(t.clients[i]);
  }

  lemma ArriveKeepsInv(cfg: Config, s: Sys, i: nat)
    requires UniquePids(cfg) && Inv(cfg, s) && Enabled(cfg, s, Arrive(i)) && !Displaces(cfg, s, Arrive(i))
    ensures Inv(cfg, Apply(cfg, s, Arrive(i)))
  {
    var t := Apply(cfg, s, Arrive(i));
    var q := s.server.fila;
    var item := Item(cfg.pid[i], s.clients[i].phase.stamp, ());
    ArrivalAccepted(cfg, s, i);
    InsereMembers(q, cfg.n, item);
    InsereKeepsWellQueued(q, cfg.n, item);
    forall x | x in t.server.fila
      ensures OwnedByQueued(cfg, t, x.pid)
    {
      if x in q {
        OwnersStay(cfg, s, t, x.pid);
      } else {
        assert Queued(t.clients[i]);
      }
    }
    forall h | 0 <= h < |t.clients| && Past(t.clients[h])
      ensures IsHead(t.server, cfg.pid[h])
    {
      assert Past(s.clients[h]) && IsHead(s.server, cfg.pid[h]);
    }
  }

  lemma TailHasPid(q: seq<Item<()>>, pid: int)
    requires HasPid(q, pid) && q[0].pid != pid
    ensures HasPid(q[1..], pid)
  {
    var k :| 0 <= k < |q| && q[k].pid == pid;
    assert q[1..][k - 1] == q[k];
  }

  lemma TailOwners(cfg: Config, s: Sys, t: Sys, i: nat)
    requires |s.clients| == |t.clients| == |cfg.pid| && i < |s.clients| && IsHead(s.server, cfg.pid[i])
    requires QueueSpec.DistinctPids(s.server.fila)
    requires forall item :: item in s.server.fila ==> OwnedByQueued(cfg, s, item.pid)
    requires forall j :: 0 <= j < |s.clients| && j != i ==> t.clients[j] == s.clients[j]
    ensures forall item :: item in s.server.fila[1..] ==> OwnedByQueued(cfg, t, item.pid)
  {
    var q := s.server.fila;
    forall x | x in q[1..]
      ensures OwnedByQueued(cfg, t, x.pid)
    {
      var k :| 1 <= k < |q| && q[k] == x;
      assert OwnedByQueued(cfg, s, x.pid) && x.pid != cfg.pid[i];
      OwnersStay(cfg, s, t, x.pid);
    }
  }

  lemma FreeKeepsInv(cfg: Config, s: Sys, i: nat)
    requires UniquePids(cfg) && Inv(cfg, s) && Enabled(cfg, s, Free(i))
    ensures Inv(cfg, Apply(cfg, s, Free(i)))
  {
    var t := Apply(cfg, s, Free(i));
    var q := s.server.fila;
    assert IsHead(s.server, cfg.pid[i]);
    InsereKeepsWellQueued(q, cfg.n, q[0]);
    TailOwners(cfg, s, t, i);
    forall j | 0 <= j < |t.clients| && t.clients[j].phase.Waiting? && HasPid(q, cfg.pid[j])
      ensures HasPid(t.server.fila, cfg.pid[j])
    {
      TailHasPid(q, cfg.pid[j]);
    }
  }

  lemma OtherStepsKeepInv(cfg: Config, s: Sys, step: Step)
    requires UniquePids(cfg) && Inv(cfg, s) && Enabled(cfg, s, step) && !step.Arrive? && !step.Free?
    ensures Inv(cfg, Apply(cfg, s, step))
  {
    var t := Apply(cfg, s, step);
    forall x | x in t.server.fila
      ensures OwnedByQueued(cfg, t, x.pid)
    {
      OwnersStay(cfg, s, t, x.pid);
    }
  }

  lemma StepKeepsInv(cfg: Config, s: Sys, step: Step)
    requires UniquePids(cfg) && Inv(cfg, s) && Enabled(cfg, s, step) && !Displaces(cfg, s, step)
    ensures Inv(cfg, Apply(cfg, s, step))
  {
    if step.Arrive? {
      ArriveKeepsInv(cfg, s, step.i);
    } else if step.Free? {
      FreeKeepsInv(cfg, s, step.i);
    } else {
      OtherStepsKeepInv(cfg, s, step);
    }
  }

  lemma {:induction false} RunKeepsInv(cfg: Config, s: Sys, steps: seq<Step>)
    requires UniquePids(cfg) && Inv(cfg, s) && Orderly(cfg, s, steps)
    ensures match After(cfg, s, steps) case None => true case Some(t) => Inv(cfg, t)
    decreases |steps|
  {
    if steps != [] && Enabled(cfg, s, steps[0]) {
      StepKeepsInv(cfg, s, steps[0]);
      RunKeepsInv(cfg, Apply(cfg, s, steps[0]), steps[1..]);
    }
  }

  lemma OrderlyInv(cfg: Config, steps: seq<Step>, s: Sys)
    requires UniquePids(cfg) && Orderly(cfg, Init(cfg), steps) && After(cfg, Init(cfg), steps) == Some(s)
    ensures Inv(cfg, s)
  {
    assert Inv(cfg, Init(cfg));
    RunKeepsInv(cfg, Init(cfg), steps);
  }

  // Exactly when mutual exclusion holds.

  /** Whatever prefix of the run is taken, answering one more caller leaves at most one past
      the wait loop. */
  ghost predicate AnswersExclusively(cfg: Config, s: Sys, steps: seq<Step>) {
    forall k: nat, i: nat :: k <= |steps| ==> AnswerIsExclusive(cfg, s, steps[..k], i)
  }

  predicate AnswerIsExclusive(cfg: Config, s: Sys, steps: seq<Step>, i: nat) {
    match After(cfg, s, steps + [Respond(i)]) case None => true case Some(t) => MutualExclusion(t)
  }

  /** The head test decides: a possible run is orderly if and only if no answer given along
      it, or that could be given along it, breaks mutual exclusion. */
  lemma OrderlyIffExclusive(cfg: Config, steps: seq<Step>)
    requires UniquePids(cfg) && After(cfg, Init(cfg), steps).Some?
    ensures Orderly(cfg, Init(cfg), steps) <==> AnswersExclusively(cfg, Init(cfg), steps)
  {
    var s := Init(cfg);
    assert Inv(cfg, s);
    if Orderly(cfg, s, steps) {
      forall k: nat, i: nat | k <= |steps|
        ensures AnswerIsExclusive(cfg, s, steps[..k], i)
      {
        OrderlyPrefix(cfg, s, steps, k, i);
        RunKeepsInv(cfg, s, steps[..k] + [Respond(i)]);
        match After(cfg, s, steps[..k] + [Respond(i)])
        case None =>
        case Some(t) => InvExcludes(cfg, t);
      }
    } else {
      var k, i := FirstDisplacement(cfg, s, steps);
      assert !AnswerIsExclusive(cfg, s, steps[..k], i);
    }
  }

  lemma {:induction false} OrderlyPrefix(cfg: Config, s: Sys, steps: seq<Step>, k: nat, i: nat)
    requires k <= |steps| && Orderly(cfg, s, steps)
    ensures Orderly(cfg, s, steps[..k] + [Respond(i)])
    decreases |steps|
  {
    var run := steps[..k] + [Respond(i)];
    if k == 0 {
      assert run == [Respond(i)] && run[1..] == [];
    } else if Enabled(cfg, s, steps[0]) {
      assert run[0] == steps[0] && run[1..] == steps[1..][..k - 1] + [Respond(i)];
      OrderlyPrefix(cfg, Apply(cfg, s, steps[0]), steps[1..], k - 1, i);
    }
  }

  /** Right after a displacement the newcomer can be answered, next to the caller it
      displaced. */
  lemma {:induction false} FirstDisplacement(cfg: Config, s: Sys, steps: seq<Step>) returns (k: nat, i: nat)
    requires UniquePids(cfg) && After(cfg, s, steps).Some? && !Orderly(cfg, s, steps)
    ensures k <= |steps| && !AnswerIsExclusive(cfg, s, steps[..k], i)
    decreases |steps|
  {
    var t := Apply(cfg, s, steps[0]);
    if Displaces(cfg, s, steps[0]) {
      k, i := 1, steps[0].i;
      assert steps[..1] + [Respond(i)] == [steps[0], Respond(i)];
      AnsweredTwice(cfg, s, steps[0]);
    } else {
      k, i := FirstDisplacement(cfg, t, steps[1..]);
      var run := steps[..k + 1] + [Respond(i)];
      assert run[0] == steps[0] && run[1..] == steps[1..][..k] + [Respond(i)];
      k := k + 1;
    }
  }

  lemma AnsweredTwice(cfg: Config, s: Sys, step: Step)
    requires UniquePids(cfg) && Enabled(cfg, s, step) && Displaces(cfg, s, step)
    ensures match After(cfg, s, [step, Respond(step.i)]) case None => false case Some(u) => !MutualExclusion(u)
  {
    var t := Apply(cfg, s, step);
    var h :| 0 <= h < |s.clients| && Past(s.clients[h]) && cfg.pid[h] == s.server.fila[0].pid;
    assert h != step.i && Past(t.clients[h]);
    assert IsHead(t.server, cfg.pid[step.i]);
    var u := Apply(cfg, t, Respond(step.i));
    assert Past(u.clients[h]) && Past(u.clients[step.i]);
    AfterOne(cfg, t, Respond(step.i));
    assert [step, Respond(step.i)][1..] == [Respond(step.i)];
  }

  ghost predicate AlwaysExclusive(cfg: Config) {
    forall steps :: match After(cfg, Init(cfg), steps) case None => true case Some(s) => MutualExclusion(s)
  }

  lemma {:induction false} ClientCount(cfg: Config, s: Sys, steps: seq<Step>)
    ensures match After(cfg, s, steps) case None => true case Some(t) => |t.clients| == |s.clients|
    decreases |steps|
  {
    if steps != [] && Enabled(cfg, s, steps[0]) {
      ClientCount(cfg, Apply(cfg, s, steps[0]), steps[1..]);
    }
  }

  /** Without the arrival condition the variant is exclusive only for a single client: a
      second client whose clock is behind displaces the holder. */
  lemma UnconditionalExclusionIff(cfg: Config)
    requires UniquePids(cfg) && cfg.n >= 2
    ensures AlwaysExclusive(cfg) <==> |cfg.pid| <= 1
  {
    if |cfg.pid| <= 1 {
      forall steps
        ensures match After(cfg, Init(cfg), steps) case None => true case Some(s) => MutualExclusion(s)
      {
        ClientCount(cfg, Init(cfg), steps);
      }
    } else {
      var steps := LateClient(cfg);
      assert After(cfg, Init(cfg), steps).Some?;
    }
  }

  /** Client 0 completes a round and is answered again, with stamp 4; then client 1 makes
      its first call, with stamp 1. */
  lemma LateClient(cfg: Config) returns (steps: seq<Step>)
    requires UniquePids(cfg) && cfg.n >= 2 && |cfg.pid| >= 2
    ensures match After(cfg, Init(cfg), steps) case None => false case Some(s) => !MutualExclusion(s)
  {
    var s := FirstRound(cfg);
    var round := [Call(0), Arrive(0), Respond(0)] + [Enter(0), Leave(0), Free(0)];
    var t := SoloAnswer(cfg, s);
    var again := [Call(0), Arrive(0), Respond(0)];
    AfterConcat(cfg, Init(cfg), round, again);
    var u := Apply(cfg, t, Call(1));
    assert u.clients[1].phase == Calling(1) && Past(u.clients[0]);
    assert Displaces(cfg, u, Arrive(1));
    AnsweredTwice(cfg, u, Arrive(1));
    AfterOne(cfg, t, Call(1));
    AfterConcat(cfg, t, [Call(1)], [Arrive(1), Respond(1)]);
    AfterConcat(cfg, Init(cfg), round + again, [Call(1)] + [Arrive(1), Respond(1)]);
    steps := round + again + ([Call(1)] + [Arrive(1), Respond(1)]);
  }

  lemma AfterThree(cfg: Config, s0: Sys, s1: Sys, s2: Sys, s3: Sys, a: Step, b: Step, c: Step)
    requires Enabled(cfg, s0, a) && s1 == Apply(cfg, s0, a)
    requires Enabled(cfg, s1, b) && s2 == Apply(cfg, s1, b)
    requires Enabled(cfg, s2, c) && s3 == Apply(cfg, s2, c)
    ensures After(cfg, s0, [a, b, c]) == Some(s3)
  {
    AfterOne(cfg, s2, c);
    assert [a, b, c][1..][1..] == [c];
    assert After(cfg, s1, [a, b, c][1..]) == Some(s3);
  }

  /** With an empty queue client 0's call is answered at once. */
  lemma SoloAnswer(cfg: Config, s: Sys) returns (t: Sys)
    requires cfg.n >= 2 && |s.clients| == |cfg.pid| >= 2 && s.server.fila == []
    requires s.clients[0].phase == Idle && 0 <= s.clients[0].tempo < INT_MAX
    ensures After(cfg, s, [Call(0), Arrive(0), Respond(0)]) == Some(t)
    ensures t.server == Server(s.server.tempo + 1, s.server.token, [Item(cfg.pid[0], s.clients[0].tempo + 1, ())])
    ensures |t.clients| == |cfg.pid| && t.clients == s.clients[0 := t.clients[0]]
    ensures t.clients[0].phase == Answered(Rpc.Reply(cfg.pid[0], s.server.tempo + 1, s.server.token))
    ensures t.clients[0].tempo == s.clients[0].tempo + 1
  {
    var s1 := Apply(cfg, s, Call(0));
    var s2 := Apply(cfg, s1, Arrive(0));
    assert s2.server.fila == [Item(cfg.pid[0], s.clients[0].tempo + 1, ())];
    t := Apply(cfg, s2, Respond(0));
    AfterThree(cfg, s, s1, s2, t, Call(0), Arrive(0), Respond(0));
  }

  lemma FirstRound(cfg: Config) returns (s: Sys)
    requires cfg.n >= 2 && |cfg.pid| >= 2
    ensures After(cfg, Init(cfg), [Call(0), Arrive(0), Respond(0)] + [Enter(0), Leave(0), Free(0)]) == Some(s)
    ensures |s.clients| == |cfg.pid| && s.server.fila == []
    ensures s.clients[0].phase == Idle && s.clients[0].tempo == 3 && s.clients[1] == Client(Idle, 0, 0)
  {
    var s3 := SoloAnswer(cfg, Init(cfg));
    var s4 := Apply(cfg, s3, Enter(0));
    var s5 := Apply(cfg, s4, Leave(0));
    s := Apply(cfg, s5, Free(0));
    AfterThree(cfg, s3, s4, s5, s, Enter(0), Leave(0), Free(0));
    AfterConcat(cfg, Init(cfg), [Call(0), Arrive(0), Respond(0)], [Enter(0), Leave(0), Free(0)]);
  }

  // What an orderly run guarantees.

  /** In an orderly run at most one caller is past the wait loop, and it is the head. */
  lemma ConditionalExclusion(cfg: Config, steps: seq<Step>, s: Sys)
    requires UniquePids(cfg) && Orderly(cfg, Init(cfg), steps) && After(cfg, Init(cfg), steps) == Some(s)
    ensures MutualExclusion(s)
    ensures forall i :: 0 <= i < |s.clients| && Past(s.clients[i]) ==> i < |cfg.pid| && IsHead(s.server, cfg.pid[i])
  {
    OrderlyInv(cfg, steps, s);
    InvExcludes(cfg, s);
  }

  /** With no more clients than places, a waiting caller stays queued, so the head that its
      wait loop reads is never null, and nobody's release is for another's item. */
  lemma WaitLoopIsDefined(cfg: Config, steps: seq<Step>, s: Sys, i: nat)
    requires UniquePids(cfg) && Orderly(cfg, Init(cfg), steps) && After(cfg, Init(cfg), steps) == Some(s)
    requires |cfg.pid| <= cfg.n && i < |s.clients|
    ensures |s.clients| == |cfg.pid|
    ensures s.clients[i].phase.Waiting? ==> HasPid(s.server.fila, cfg.pid[i]) && s.server.fila != []
    ensures s.clients[i].phase.Returning? ==> IsHead(s.server, cfg.pid[i])
  {
    OrderlyInv(cfg, steps, s);
  }
}
