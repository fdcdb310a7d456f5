/** The RPC server and its concurrent callers. */
module RpcProtocol {
  import opened CInt
  import opened Wrappers
  import opened QueueSpec
  import opened Rpc

  /** `pid[i]` is the PID of client `i`; `n` the capacity of the queue. */
  datatype Config = Config(pid: seq<int>, n: int)

  datatype Sys = Sys(server: Server, clients: seq<Client>)

  /** Client `i` calls; its request is enqueued; its wait ends and it is answered; the reply
      reaches it; it leaves its critical section and calls the release; that is served. */
  datatype Step =
    | Call(i: nat)
    | Arrive(i: nat)
    | Respond(i: nat)
    | Enter(i: nat)
    | Leave(i: nat)
    | Free(i: nat)

  function Init(cfg: Config): Sys {
    Sys(Start, seq(|cfg.pid|, _ => Client(Idle, 0, 0)))
  }

  /** Stamps and values stay in the range of the `int`s they are copied to. */
  predicate Enabled(cfg: Config, s: Sys, step: Step) {
    && step.i < |s.clients| == |cfg.pid|
    && var c := s.clients[step.i];
       match step
       case Call(i) => c.phase.Idle?
       case Arrive(i) => c.phase.Calling? && c.phase.stamp <= INT_MAX
       case Respond(i) => c.phase.Waiting? && IsHead(s.server, cfg.pid[i])
       case Enter(i) => c.phase.Answered?
       case Leave(i) => c.phase.Critical? && Next(c.recurso) <= INT_MAX
       case Free(i) => c.phase.Returning?
  }

  function Apply(cfg: Config, s: Sys, step: Step): Sys
    requires Enabled(cfg, s, step)
  {
    var i := step.i;
    var c := s.clients[i];
    match step
    case Call(_) => s.(clients := s.clients[i := Send(c)])
    case Arrive(_) =>
      Sys(Enqueue(s.server, cfg.n, cfg.pid[i], c.phase.stamp), s.clients[i := c.(phase := Waiting(c.phase.stamp))])
    case Respond(_) =>
      var (server, rep) := Answer(s.server, cfg.pid[i]);
      Sys(server, s.clients[i := c.(phase := Answered(rep))])
    case Enter(_) => s.(clients := s.clients[i := Receive(c, c.phase.rep)])
    case Leave(_) => s.(clients := s.clients[i := Return(c, cfg.pid[i])])
    case Free(_) => Sys(Rel(s.server, c.phase.rel), s.clients[i := c.(phase := Idle)])
  }

  function After(cfg: Config, s: Sys, steps: seq<Step>): Option<Sys>
    decreases |steps|
  {
    if steps == [] then Some(s)
    else if Enabled(cfg, s, steps[0]) then After(cfg, Apply(cfg, s, steps[0]), steps[1..])
    else None
  }

  lemma {:induction false} AfterConcat(cfg: Config, s: Sys, first: seq<Step>, second: seq<Step>)
    ensures After(cfg, s, first + second) ==
            match After(cfg, s, first) case None => None case Some(t) => After(cfg, t, second)
    decreases |first|
  {
    if first == [] {
      assert first + second == second;
    } else if Enabled(cfg, s, first[0]) {
      assert (first + second)[1..] == first[1..] + second;
      AfterConcat(cfg, Apply(cfg, s, first[0]), first[1..], second);
    }
  }

  lemma AfterOne(cfg: Config, s: Sys, step: Step)
    requires Enabled(cfg, s, step)
    ensures After(cfg, s, [step]) == Some(Apply(cfg, s, step))
  {
    assert [step][1..] == [];
    assert After(cfg, Apply(cfg, s, step), []) == Some(Apply(cfg, s, step));
  }

  /** Past the wait loop without a served release. */
  predicate Past(c: Client) {
    c.phase.Answered? || c.phase.Critical? || c.phase.Returning?
  }

  predicate MutualExclusion(s: Sys) {
    forall i, j :: 0 <= i < j < |s.clients| ==> !(Past(s.clients[i]) && Past(s.clients[j]))
  }

  predicate UniquePids(cfg: Config) {
    forall i, j :: 0 <= i < j < |cfg.pid| ==> cfg.pid[i] != cfg.pid[j]
  }

  /** The arriving request takes the front of the queue from a caller already answered. */
  ghost predicate Displaces(cfg: Config, s: Sys, step: Step)
    requires Enabled(cfg, s, step)
  {
    && step.Arrive?
    && Accepts(s.server.fila, cfg.n, cfg.pid[step.i])
    && s.server.fila != [] && s.server.fila[0].tempo > s.clients[step.i].phase.stamp
    && exists h :: 0 <= h < |s.clients| && Past(s.clients[h]) && cfg.pid[h] == s.server.fila[0].pid
  }

  /** No arrival of the run displaces an answered caller: each either finds the queue empty
      or full, or the head not yet answered, or carries a stamp not before the head's. */
  ghost predicate Orderly(cfg: Config, s: Sys, steps: seq<Step>)
    decreases |steps|
  {
    steps != [] && Enabled(cfg, s, steps[0]) ==>
      !Displaces(cfg, s, steps[0]) && Orderly(cfg, Apply(cfg, s, steps[0]), steps[1..])
  }

  // What each step does, on its own terms.

  /** Only the client that steps changes. */
  predicate OthersStay(s: Sys, t: Sys, i: nat) {
    |t.clients| == |s.clients| && forall j :: 0 <= j < |s.clients| && j != i ==> t.clients[j] == s.clients[j]
  }

  /** The moves of a client: a call is stamped with the next tick; the reply is merged, to one
      past the larger of the two clocks; the release carries the next tick and the value
      doubled, two when there was none. */
  lemma ClientSteps(cfg: Config, s: Sys, i: nat)
    ensures Enabled(cfg, s, Call(i)) ==>
              var c, t := s.clients[i], Apply(cfg, s, Call(i));
              OthersStay(s, t, i) && t.server == s.server
              && t.clients[i] == Client(Calling(c.tempo + 1), c.tempo + 1, c.recurso)
    ensures Enabled(cfg, s, Enter(i)) ==>
              var c, t := s.clients[i], Apply(cfg, s, Enter(i));
              var rep := c.phase.rep;
              OthersStay(s, t, i) && t.server == s.server
              && t.clients[i] == Client(Critical, (if c.tempo > rep.tempo_s then c.tempo else rep.tempo_s) + 1,
                                        rep.recurso)
    ensures Enabled(cfg, s, Leave(i)) ==>
              var c, t := s.clients[i], Apply(cfg, s, Leave(i));
              var value := if c.recurso < 0 then 2 else 2 * c.recurso;
              OthersStay(s, t, i) && t.server == s.server
              && t.clients[i] == Client(Returning(Release(cfg.pid[i], c.tempo + 1, value)), c.tempo + 1, value)
  {
  }

  /** An arrival is queued in place under the stamp of its own call, or refused. */
  lemma ArrivalQueuesInPlace(cfg: Config, s: Sys, i: nat)
    requires Enabled(cfg, s, Arrive(i)) && Sorted(s.server.fila)
    ensures var stamp, t := s.clients[i].phase.stamp, Apply(cfg, s, Arrive(i));
            && OthersStay(s, t, i) && t.clients[i] == s.clients[i].(phase := Waiting(stamp))
            && t.server == Server(s.server.tempo, s.server.token, t.server.fila)
            && QueuedOrRefused(s.server.fila, t.server.fila, cfg.n, Item(cfg.pid[i], stamp, ()))
  {
    InsereQueuesInPlace(s.server.fila, cfg.n, Item(cfg.pid[i], s.clients[i].phase.stamp, ()));
  }

  /** An answer ticks the clock, without merging the request's stamp, and carries the value. */
  lemma AnswerTicks(cfg: Config, s: Sys, i: nat)
    requires Enabled(cfg, s, Respond(i))
    ensures var t := Apply(cfg, s, Respond(i));
            && OthersStay(s, t, i)
            && t.server == Server(s.server.tempo + 1, s.server.token, s.server.fila)
            && t.clients[i]
               == s.clients[i].(phase := Answered(Rpc.Reply(cfg.pid[i], s.server.tempo + 1, s.server.token)))
  {
  }

  /** A release stores the value, merges the clock to one past the larger, and pops the head. */
  lemma ReleaseMerges(cfg: Config, s: Sys, i: nat)
    requires Enabled(cfg, s, Free(i))
    ensures var rel, t := s.clients[i].phase.rel, Apply(cfg, s, Free(i));
            && OthersStay(s, t, i) && t.clients[i] == s.clients[i].(phase := Idle)
            && t.server.tempo == (if s.server.tempo > rel.tempo_c then s.server.tempo else rel.tempo_c) + 1
            && t.server.token == rel.recurso_n
            && t.server.fila == if s.server.fila == [] then [] else s.server.fila[1..]
  {
  }
}
