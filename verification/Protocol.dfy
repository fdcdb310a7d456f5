/** The whole system: one server, any number of clients, and the datagrams in flight. */
module Protocol {
  import opened CInt
  import opened Wrappers
  import opened Messages
  import opened QueueSpec
  import opened Sums
  import Server
  import Client

  /** `pid[a]` is the PID of the client at address `a`; `n` the capacity of the queue.
      Without `fifo` the network may reorder at will; with it the datagrams of one client
      reach the server in the order sent. With `lossy` datagrams may disappear. They are
      never duplicated. `junk` fills what the programs leave uninitialised. */
  datatype Config = Config(pid: seq<int>, n: int, fifo: bool, lossy: bool, junk: int)

  datatype Sys = Sys(server: Server.State, clients: seq<Client.State>, net: seq<Msg>)

  datatype Step =
    | Ask(a: nat)
    | Deliver(i: nat)
    | Leave(a: nat)
    | Drop(i: nat)

  function Init(cfg: Config): Sys {
    Sys(Server.Start,
        seq(|cfg.pid|, _ => Client.Start(Dgram(cfg.junk, cfg.junk, cfg.junk, cfg.junk))),
        [])
  }

  /** No datagram of the same client was sent before message `i` and is still in flight. */
  predicate FirstOfItsSender(net: seq<Msg>, i: nat)
    requires i < |net| && net[i].ToServer?
  {
    forall j :: 0 <= j < i ==> !(net[j].ToServer? && net[j].from == net[i].from)
  }

  predicate Enabled(cfg: Config, s: Sys, step: Step) {
    match step
    case Ask(a) => a < |s.clients| && a < |cfg.pid| && Client.CanAsk(s.clients[a])
    case Deliver(i) =>
      && i < |s.net|
      && (match s.net[i]
          case ToServer(from, d) =>
            Server.Defined(s.server, d) && (cfg.fifo ==> FirstOfItsSender(s.net, i))
          case ToClient(to, d, _) =>
            to < |s.clients| && to < |cfg.pid| && Client.CanReceive(s.clients[to], d))
    case Leave(a) => a < |s.clients| && a < |cfg.pid| && Client.CanLeave(s.clients[a])
    case Drop(i) => cfg.lossy && i < |s.net|
  }

  function Apply(cfg: Config, s: Sys, step: Step): Sys
    requires Enabled(cfg, s, step)
  {
    match step
    case Ask(a) =>
      var (c, d) := Client.Ask(s.clients[a], cfg.pid[a]);
      s.(clients := s.clients[a := c], net := s.net + [ToServer(a, d)])
    case Deliver(i) =>
      (match s.net[i]
       case ToServer(from, d) =>
         var (server, sent) := Server.Handle(s.server, cfg.n, cfg.junk, from, d);
         s.(server := server, net := Without(s.net, i) + sent)
       case ToClient(to, d, whole) =>
         var c := Client.Receive(s.clients[to], cfg.pid[to], d, whole);
         s.(clients := s.clients[to := c], net := Without(s.net, i)))
    case Leave(a) =>
      var (c, d) := Client.Leave(s.clients[a], cfg.pid[a]);
      s.(clients := s.clients[a := c], net := s.net + [ToServer(a, d)])
    case Drop(i) =>
      s.(net := Without(s.net, i))
  }

  /** The state after a run, or None when some step of it is not enabled. */
  function After(cfg: Config, s: Sys, steps: seq<Step>): Option<Sys>
    decreases |steps|
  {
    if steps == [] then Some(s)
    else if Enabled(cfg, s, steps[0]) then After(cfg, Apply(cfg, s, steps[0]), steps[1..])
    else None
  }

  /** `s` is the state reached by the run `steps` from the start of all programs. */
  predicate Reaches(cfg: Config, steps: seq<Step>, s: Sys) {
    After(cfg, Init(cfg), steps) == Some(s)
  }

  lemma {:induction false} AfterConcat(cfg: Config, s: Sys, first: seq<Step>, second: seq<Step>)
    ensures After(cfg, s, first + second) ==
            match After(cfg, s, first) case None => None case Some(t) => After(cfg, t, second)
    decreases |first|
  {
    if first == [] {
      assert first + second == second;
    } else if Enabled(cfg, s, first[0]) {
      assert (first + second)[1..] == first[1..] + second;
      AfterConcat(cfg, Apply(cfg, s, first[0]), first[1..], second);
    }
  }

  lemma AfterOne(cfg: Config, s: Sys, step: Step)
    requires Enabled(cfg, s, step)
    ensures After(cfg, s, [step]) == Some(Apply(cfg, s, step))
  {
    assert [step][1..] == [];
    assert After(cfg, Apply(cfg, s, step), []) == Some(Apply(cfg, s, step));
  }

  // Kinds of messages.

  predicate IsRequest(m: Msg) {
    m.ToServer? && m.d.cod == REQUEST_TOKEN
  }

  predicate IsRelease(m: Msg) {
    m.ToServer? && m.d.cod == RELEASE_TOKEN
  }

  predicate IsAllow(m: Msg) {
    m.ToClient? && !m.whole
  }

  /** The delivery of this message makes the server hand out the token, and to whom. */
  function GrantedBy(s: Sys, step: Step): Option<nat> {
    if step.Deliver? && step.i < |s.net| then
      var m := s.net[step.i];
      if IsRequest(m) && s.server.flag == -1 then Some(m.from)
      else if IsRelease(m) && s.server.fila != [] then Some(s.server.fila[0].addr)
      else None
    else None
  }

  /** The server ignores the result of `insere`; this step is one where it is a refusal. */
  predicate Rejects(cfg: Config, s: Sys, step: Step) {
    && step.Deliver? && step.i < |s.net|
    && IsRequest(s.net[step.i]) && s.server.flag != -1
    && !Accepts(s.server.fila, cfg.n, s.net[step.i].d.pid)
  }

  // Conditions on a configuration.

  /** No PID reads as -1, the mark of a free token, once narrowed to a char. */
  predicate SafePids(cfg: Config) {
    forall a :: 0 <= a < |cfg.pid| ==> NarrowChar(cfg.pid[a]) != -1
  }

  predicate UniquePids(cfg: Config) {
    forall a, b :: 0 <= a < b < |cfg.pid| ==> cfg.pid[a] != cfg.pid[b]
  }

  /** As many clients as the queue is sure to hold: one more when every datagram arrives
      and each client's arrive in order, since then the holder is never queued. */
  predicate FitsQueue(cfg: Config) {
    |cfg.pid| <= if cfg.fifo && !cfg.lossy then cfg.n + 1 else cfg.n
  }

  predicate Reliable(cfg: Config) {
    !cfg.lossy && UniquePids(cfg) && FitsQueue(cfg)
  }

  predicate MutualExclusion(s: Sys) {
    forall a, b :: 0 <= a < b < |s.clients| ==>
      !(s.clients[a].phase == Client.Critical && s.clients[b].phase == Client.Critical)
  }
}
