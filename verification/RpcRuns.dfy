/** What the orderly runs of the RPC variant guarantee: exact stamps through the critical
    sections, no lost update, and answers in the order of the requests. */
module RpcRuns {
  import opened CInt
  import opened Wrappers
  import opened QueueSpec
  import opened Rpc
  import opened RpcProtocol
  import opened RpcSafety

  // The chain of stamps and the shared value.

  /** A grant to caller `i`, whose request was stamped `asked`, or the release by `i`. */
  datatype Event = Granted(i: nat, asked: int, tempo_s: int) | Released(i: nat, tempo_c: int)

  function EventOf(cfg: Config, s: Sys, step: Step): seq<Event>
    requires Enabled(cfg, s, step)
  {
    match step
    case Respond(i) => [Granted(i, s.clients[i].phase.stamp, Apply(cfg, s, step).clients[i].phase.rep.tempo_s)]
    case Free(i) => [Released(i, s.clients[i].phase.rel.tempo_c)]
    case _ => []
  }

  /** The grants and the releases of a run, in the order the server makes and serves them. */
  function Trace(cfg: Config, s: Sys, steps: seq<Step>): seq<Event>
    decreases |steps|
  {
    if steps != [] && Enabled(cfg, s, steps[0]) then
      EventOf(cfg, s, steps[0]) + Trace(cfg, Apply(cfg, s, steps[0]), steps[1..])
    else []
  }

  /** Between two events: the token is at the server, whose clock is `clock`, or caller `i`
      has it and its release is due with stamp `due`. */
  datatype Link = AtServer(clock: int) | With(i: nat, due: int)

  /** Grants and releases alternate, each release by the caller granted just before. A grant
      is stamped with the server's next tick; the release two past the larger of the
      request and the grant; and the server's clock is then one past the release. */
  predicate Chained(trace: seq<Event>, link: Link)
    decreases |trace|
  {
    trace != [] ==>
      match trace[0]
      case Granted(i, asked, tempo_s) =>
        && link.AtServer? && tempo_s == link.clock + 1
        && Chained(trace[1..], With(i, (if asked > tempo_s then asked else tempo_s) + 2))
      case Released(i, tempo_c) =>
        link == With(i, tempo_c) && Chained(trace[1..], AtServer(tempo_c + 1))
  }

  /** The state agrees with the link, and the value on its way is the server's, doubled
      once the holder has worked on it. */
  predicate Linked(s: Sys, link: Link) {
    && (forall i :: 0 <= i < |s.clients| && Past(s.clients[i]) ==> link.With? && link.i == i)
    && match link
       case AtServer(clock) => s.server.tempo == clock
       case With(h, due) =>
         && h < |s.clients| && Past(s.clients[h]) && s.server.tempo < due
         && var c := s.clients[h];
            match c.phase
            case Answered(rep) => Max(c.tempo, rep.tempo_s) + 2 == due && rep.recurso == s.server.token
            case Returning(rel) => rel.tempo_c == due && rel.recurso_n == Next(s.server.token)
            case _ => c.tempo + 1 == due && c.recurso == s.server.token
  }

  /** The value after the releases of a trace. */
  function Replay(token: int, trace: seq<Event>): int
    decreases |trace|
  {
    if trace == [] then token
    else Replay(if trace[0].Released? then Next(token) else token, trace[1..])
  }

  lemma RespondLinks(cfg: Config, s: Sys, i: nat, link: Link)
    requires UniquePids(cfg) && Inv(cfg, s) && Enabled(cfg, s, Respond(i)) && Linked(s, link)
    ensures link == AtServer(s.server.tempo)
    ensures var due := Max(s.clients[i].phase.stamp, s.server.tempo + 1) + 2;
            Linked(Apply(cfg, s, Respond(i)), With(i, due))
  {
    assert InStepWithCall(s.clients[i]);
    InvExcludes(cfg, Apply(cfg, s, Respond(i))) by {
      OtherStepsKeepInv(cfg, s, Respond(i));
    }
  }

  lemma FreeLinks(cfg: Config, s: Sys, i: nat, link: Link)
    requires Enabled(cfg, s, Free(i)) && Linked(s, link)
    ensures link == With(i, s.clients[i].phase.rel.tempo_c)
    ensures Linked(Apply(cfg, s, Free(i)), AtServer(s.clients[i].phase.rel.tempo_c + 1))
    ensures Apply(cfg, s, Free(i)).server.token == Next(s.server.token)
  {
    assert Past(s.clients[i]);
  }

  lemma OtherStepsStayLinked(cfg: Config, s: Sys, step: Step, link: Link)
    requires Enabled(cfg, s, step) && Linked(s, link) && !step.Respond? && !step.Free?
    ensures Linked(Apply(cfg, s, step), link)
    ensures Apply(cfg, s, step).server.token == s.server.token
  {
    var t := Apply(cfg, s, step);
    forall i | 0 <= i < |t.clients| && Past(t.clients[i])
      ensures link.With? && link.i == i
    {
      assert Past(s.clients[i]);
    }
  }

  /** One step adds at most one event, which continues the chain. */
  lemma StepLinks(cfg: Config, s: Sys, step: Step, link: Link) returns (next: Link)
    requires UniquePids(cfg) && Inv(cfg, s) && Enabled(cfg, s, step) && Linked(s, link)
    ensures Linked(Apply(cfg, s, step), next)
    ensures forall rest :: Chained(rest, next) ==> Chained(EventOf(cfg, s, step) + rest, link)
    ensures forall rest ::
              Replay(s.server.token, EventOf(cfg, s, step) + rest) == Replay(Apply(cfg, s, step).server.token, rest)
  {
    next := link;
    var event := EventOf(cfg, s, step);
    match step
    case Respond(i) =>
      RespondLinks(cfg, s, i, link);
      next := With(i, Max(s.clients[i].phase.stamp, s.server.tempo + 1) + 2);
      assert forall rest: seq<Event> :: (event + rest)[1..] == rest;
    case Free(i) =>
      FreeLinks(cfg, s, i, link);
      next := AtServer(s.clients[i].phase.rel.tempo_c + 1);
      assert forall rest: seq<Event> :: (event + rest)[1..] == rest;
    case _ =>
      OtherStepsStayLinked(cfg, s, step, link);
      assert forall rest: seq<Event> :: event + rest == rest;
  }

  lemma {:induction false} RunStaysLinked(cfg: Config, s: Sys, steps: seq<Step>, link: Link)
    requires UniquePids(cfg) && Inv(cfg, s) && Orderly(cfg, s, steps) && Linked(s, link)
    ensures Chained(Trace(cfg, s, steps), link)
    ensures match After(cfg, s, steps)
            case None => true
            case Some(t) => t.server.token == Replay(s.server.token, Trace(cfg, s, steps))
    decreases |steps|
  {
    if steps != [] && Enabled(cfg, s, steps[0]) {
      var next := StepLinks(cfg, s, steps[0], link);
      StepKeepsInv(cfg, s, steps[0]);
      RunStaysLinked(cfg, Apply(cfg, s, steps[0]), steps[1..], next);
    }
  }

  function Releases(trace: seq<Event>): nat
    decreases |trace|
  {
    if trace == [] then 0 else (if trace[0].Released? then 1 else 0) + Releases(trace[1..])
  }

  function Pow2(r: nat): nat {
    if r == 0 then 1 else 2 * Pow2(r - 1)
  }

  lemma {:induction false} ReplayDoubles(token: int, trace: seq<Event>)
    requires token > 0
    ensures Replay(token, trace) == token * Pow2(Releases(trace))
    decreases |trace|
  {
    if trace != [] {
      ReplayDoubles(if trace[0].Released? then Next(token) else token, trace[1..]);
    }
  }

  /** From the initial -1 the first release makes it 2, and each later one doubles it. */
  lemma {:induction false} ReplayFromStart(trace: seq<Event>)
    ensures Replay(-1, trace) == if Releases(trace) == 0 then -1 else Pow2(Releases(trace))
    decreases |trace|
  {
    if trace != [] {
      if trace[0].Released? {
        ReplayDoubles(2, trace[1..]);
      } else {
        ReplayFromStart(trace[1..]);
      }
    }
  }

  /** Over any orderly run: the stamps of grants and releases are exact, each determined by
      the one before, and the shared value is two to the number of releases, none lost. */
  lemma StampChain(cfg: Config, steps: seq<Step>)
    requires UniquePids(cfg) && Orderly(cfg, Init(cfg), steps)
    ensures var trace := Trace(cfg, Init(cfg), steps);
            && Chained(trace, AtServer(0))
            && match After(cfg, Init(cfg), steps)
               case None => true
               case Some(s) => s.server.token == if Releases(trace) == 0 then -1 else Pow2(Releases(trace))
  {
    var s := Init(cfg);
    assert Inv(cfg, s) && Linked(s, AtServer(0));
    RunStaysLinked(cfg, s, steps, AtServer(0));
    ReplayFromStart(Trace(cfg, s, steps));
  }

  function Stamp(e: Event): int {
    match e case Granted(_, _, t) => t case Released(_, t) => t
  }

  function LinkAfter(e: Event): Link {
    match e
    case Granted(i, asked, tempo_s) => With(i, Max(asked, tempo_s) + 2)
    case Released(_, tempo_c) => AtServer(tempo_c + 1)
  }

  /** Event by event: the event at any index continues the one before it. */
  lemma {:induction false} ChainAt(trace: seq<Event>, link: Link, k: nat)
    requires Chained(trace, link) && k < |trace|
    ensures Chained(trace[k..], if k == 0 then link else LinkAfter(trace[k - 1]))
    decreases k
  {
    if k == 0 {
      assert trace[0..] == trace;
    } else {
      ChainAt(trace[1..], LinkAfter(trace[0]), k - 1);
      assert trace[1..][k - 1..] == trace[k..];
    }
  }

  /** In an orderly run the first grant is stamped 1 and every later one two past the
      release before it; every release is by the caller just granted, two past the larger
      of its request's stamp and the grant's. */
  lemma StampsAreExact(cfg: Config, steps: seq<Step>, k: nat)
    requires UniquePids(cfg) && Orderly(cfg, Init(cfg), steps) && k < |Trace(cfg, Init(cfg), steps)|
    ensures var trace := Trace(cfg, Init(cfg), steps);
            match trace[k]
            case Granted(i, asked, tempo_s) =>
              if k == 0 then tempo_s == 1
              else trace[k - 1].Released? && tempo_s == trace[k - 1].tempo_c + 2
            case Released(i, tempo_c) =>
              && k > 0 && trace[k - 1].Granted? && trace[k - 1].i == i
              && tempo_c == Max(trace[k - 1].asked, trace[k - 1].tempo_s) + 2
  {
    StampChain(cfg, steps);
    ChainAt(Trace(cfg, Init(cfg), steps), AtServer(0), k);
  }

  /** So the stamps strictly increase over the whole run. */
  lemma {:induction false} ChainIncreases(trace: seq<Event>, link: Link, j: nat, k: nat)
    requires Chained(trace, link) && j < k < |trace|
    ensures Stamp(trace[j]) < Stamp(trace[k])
    decreases k - j
  {
    ChainAt(trace, link, k);
    if j + 1 < k {
      ChainIncreases(trace, link, j, k - 1);
    }
  }

  // The order of the answers.

  /** A waiting caller's item carries the stamp of its own call. */
  ghost predicate QueuedUnderOwnStamp(cfg: Config, s: Sys)
    requires |s.clients| == |cfg.pid|
  {
    forall i, item ::
      0 <= i < |s.clients| && s.clients[i].phase.Waiting? && item in s.server.fila ==>
        item.pid == cfg.pid[i] ==> item.tempo == s.clients[i].phase.stamp
  }

  lemma ArrivalKeepsOwnStamps(cfg: Config, s: Sys, i: nat)
    requires UniquePids(cfg) && Inv(cfg, s) && Enabled(cfg, s, Arrive(i)) && QueuedUnderOwnStamp(cfg, s)
    ensures QueuedUnderOwnStamp(cfg, Apply(cfg, s, Arrive(i)))
  {
    ArrivalAccepted(cfg, s, i);
    InsereMembers(s.server.fila, cfg.n, Item(cfg.pid[i], s.clients[i].phase.stamp, ()));
    forall x | x in s.server.fila
      ensures x.pid != cfg.pid[i]
    {
      var k :| 0 <= k < |s.server.fila| && s.server.fila[k] == x;
    }
  }

  lemma StepKeepsOwnStamps(cfg: Config, s: Sys, step: Step)
    requires UniquePids(cfg) && Inv(cfg, s) && Enabled(cfg, s, step) && QueuedUnderOwnStamp(cfg, s)
    ensures QueuedUnderOwnStamp(cfg, Apply(cfg, s, step))
  {
    if step.Arrive? {
      ArrivalKeepsOwnStamps(cfg, s, step.i);
    }
  }

  lemma {:induction false} RunKeepsOwnStamps(cfg: Config, s: Sys, steps: seq<Step>)
    requires UniquePids(cfg) && Inv(cfg, s) && Orderly(cfg, s, steps) && QueuedUnderOwnStamp(cfg, s)
    ensures match After(cfg, s, steps)
            case None => true
            case Some(t) => |t.clients| == |cfg.pid| && QueuedUnderOwnStamp(cfg, t)
    decreases |steps|
  {
    if steps != [] && Enabled(cfg, s, steps[0]) {
      StepKeepsInv(cfg, s, steps[0]);
      StepKeepsOwnStamps(cfg, s, steps[0]);
      RunKeepsOwnStamps(cfg, Apply(cfg, s, steps[0]), steps[1..]);
    }
  }

  /** In an orderly run callers are answered in the order of the stamps of their calls: the
      one answered asked no later than any other caller then waiting in the queue, which is
      every waiting caller when there is room for all. */
  lemma AnswersInRequestOrder(cfg: Config, steps: seq<Step>, s: Sys, i: nat, j: nat)
    requires UniquePids(cfg) && Orderly(cfg, Init(cfg), steps) && After(cfg, Init(cfg), steps) == Some(s)
    requires Enabled(cfg, s, Respond(i)) && j < |s.clients| && s.clients[j].phase.Waiting?
    requires HasPid(s.server.fila, cfg.pid[j]) || |cfg.pid| <= cfg.n
    ensures s.clients[i].phase.stamp <= s.clients[j].phase.stamp
  {
    OrderlyInv(cfg, steps, s);
    assert Inv(cfg, Init(cfg));
    RunKeepsOwnStamps(cfg, Init(cfg), steps);
    var q := s.server.fila;
    var k :| 0 <= k < |q| && q[k].pid == cfg.pid[j];
    assert q[0] in q && q[k] in q;
  }

  // The stamps of one client, in any run.

  /** Along a trace, each request of client `i` is one past its last release, `last`. */
  predicate RoundsFollow(trace: seq<Event>, i: nat, last: int)
    decreases |trace|
  {
    trace != [] ==>
      match trace[0]
      case Granted(j, asked, _) => (j == i ==> asked == last + 1) && RoundsFollow(trace[1..], i, last)
      case Released(j, tempo_c) => RoundsFollow(trace[1..], i, if j == i then tempo_c else last)
  }

  /** The clock of a client between its events. */
  predicate InRound(c: Client, last: int) {
    match c.phase
    case Idle => c.tempo == last
    case Calling(stamp) => c.tempo == stamp == last + 1
    case Waiting(stamp) => c.tempo == stamp == last + 1
    case Returning(rel) => c.tempo == rel.tempo_c
    case _ => true
  }

  lemma {:induction false} RoundsFollowFrom(cfg: Config, s: Sys, steps: seq<Step>, i: nat, last: int)
    requires i < |s.clients| && InRound(s.clients[i], last)
    ensures RoundsFollow(Trace(cfg, s, steps), i, last)
    decreases |steps|
  {
    if steps != [] && Enabled(cfg, s, steps[0]) {
      var step, t := steps[0], Apply(cfg, s, steps[0]);
      var next := if step == Free(i) then s.clients[i].phase.rel.tempo_c else last;
      RoundsFollowFrom(cfg, t, steps[1..], i, next);
      assert (EventOf(cfg, s, step) + Trace(cfg, t, steps[1..]))[|EventOf(cfg, s, step)|..]
          == Trace(cfg, t, steps[1..]);
    }
  }

  /** In every run, orderly or not, a client's first request is stamped 1 and each later one
      is one past its own previous release. */
  lemma RequestFollowsOwnRelease(cfg: Config, steps: seq<Step>, i: nat)
    requires i < |cfg.pid|
    ensures RoundsFollow(Trace(cfg, Init(cfg), steps), i, 0)
  {
    RoundsFollowFrom(cfg, Init(cfg), steps, i, 0);
  }
}
