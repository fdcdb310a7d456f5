/** The RPC variant: the caller that holds the token stays at the head of the queue, the
    others wait until they are the head, and a release pops the head. */
module Rpc {
  import opened CInt
  import opened Wrappers
  import opened QueueSpec
  import opened LinkedQueue

  datatype Reply = Reply(pid_c: int, tempo_s: int, recurso: int)
  datatype Release = Release(pid_c: int, tempo_c: int, recurso_n: int)

  // The server.

  datatype Server = Server(tempo: int, token: int, fila: seq<Item<()>>)

  const Start: Server := Server(0, -1, [])

  /** First part of `req_1_svc`. */
  function Enqueue(s: Server, n: int, pid: int, stamp: int): Server {
    s.(fila := Insere(s.fila, n, Item(pid, stamp, ())))
  }

  /** The condition that ends the wait loop of `req_1_svc`. */
  predicate IsHead(s: Server, pid: int) {
    s.fila != [] && s.fila[0].pid == pid
  }

  /** Last part of `req_1_svc`. The clock is not merged with the request. */
  function Answer(s: Server, pid: int): (Server, Reply) {
    (s.(tempo := s.tempo + 1), Reply(pid, s.tempo + 1, s.token))
  }

  function Max(a: int, b: int): (m: int)
    ensures a <= m && b <= m && (m == a || m == b)
  {
    if a > b then a else b
  }

  /** `rel_1_svc`: the head goes, whoever calls. */
  function Rel(s: Server, rel: Release): Server {
    Server(Max(s.tempo, rel.tempo_c) + 1, rel.recurso_n, if s.fila == [] then [] else s.fila[1..])
  }

  /** The statics of the RPC server. */
  class Servidor {
    var TEMPO: int
    var TOKEN: int
    var fila: Fila?<()>

    ghost predicate Valid()
      reads this, fila, if fila == null then {} else fila.Repr
    {
      fila != null ==>
        fila.Valid() && this !in fila.Repr && fila.N == 10 && WellQueued(fila.Contents(), 10)
    }

    ghost function Footprint(): set<object>
      reads this, fila
    {
      {this} + if fila == null then {} else fila.Repr
    }

    ghost function View(): Server
      reads this, fila
    {
      Server(TEMPO, TOKEN, if fila == null then [] else fila.Contents())
    }

    constructor ()
      ensures Valid() && View() == Start && fresh(Footprint())
    {
      TEMPO := 0;
      TOKEN := -1;
      fila := null;
    }

    /** Creates the queue on the first call, and enqueues the caller under its own stamp. */
    method Enfileira(pid_c: int, tempo_c: int)
      requires Valid()
      modifies Footprint()
      ensures Valid() && fresh(Footprint() - old(Footprint()))
      ensures View() == Enqueue(old(View()), 10, pid_c, tempo_c)
      ensures QueuedOrRefused(old(View().fila), View().fila, 10, Item(pid_c, tempo_c, ()))
      ensures TEMPO == old(TEMPO) && TOKEN == old(TOKEN)
    {
      if fila == null {
        fila := new Fila<()>.Init(10);
      }
      InsereKeepsWellQueued(fila.Contents(), 10, Item(pid_c, tempo_c, ()));
      InsereQueuesInPlace(fila.Contents(), 10, Item(pid_c, tempo_c, ()));
      var accepted := fila.Insere(pid_c, tempo_c, ());
    }

    /** One evaluation of the wait loop's condition, which reads the head. */
    method EhPrimeiro(pid_c: int) returns (first: bool)
      requires Valid() && View().fila != []
      ensures first == IsHead(View(), pid_c)
    {
      first := fila.head.item.pid == pid_c;
    }

    method Responde(pid_c: int) returns (rep: Reply)
      requires Valid()
      modifies this
      ensures Valid() && Footprint() == old(Footprint())
      ensures (View(), rep) == Answer(old(View()), pid_c)
      ensures rep == Reply(pid_c, old(TEMPO) + 1, TOKEN)
      ensures View() == Server(old(TEMPO) + 1, old(TOKEN), old(View().fila))
    {
      TEMPO := TEMPO + 1;
      rep := Reply(pid_c, TEMPO, TOKEN);
    }

    method Libera(rel: Release)
      requires Valid()
      modifies Footprint()
      ensures Valid() && Footprint() == old(Footprint())
      ensures View() == Rel(old(View()), rel)
      ensures TEMPO == (if old(TEMPO) > rel.tempo_c then old(TEMPO) else rel.tempo_c) + 1
      ensures TOKEN == rel.recurso_n
      ensures View().fila == if old(View().fila) == [] then [] else old(View().fila)[1..]
    {
      TOKEN := rel.recurso_n;
      TEMPO := if TEMPO > rel.tempo_c then TEMPO + 1 else rel.tempo_c + 1;
      if fila != null {
        if fila.Contents() != [] {
          InsereKeepsWellQueued(fila.Contents(), 10, fila.Contents()[0]);
        }
        var item := fila.RemoveItem();
      }
    }
  }

  // The client.

  /** Where a client's cycle stands. Between its call and its reply it is `Calling` until
      the server enqueues it and then `Waiting`, with the stamp in the argument of the call;
      from the reply on it is past the wait loop. */
  datatype Phase =
    | Idle
    | Calling(stamp: int)
    | Waiting(stamp: int)
    | Answered(rep: Reply)
    | Critical
    | Returning(rel: Release)

  datatype Client = Client(phase: Phase, tempo: int, recurso: int)

  function Send(c: Client): Client {
    c.(phase := Calling(c.tempo + 1), tempo := c.tempo + 1)
  }

  function Receive(c: Client, rep: Reply): Client {
    Client(Critical, Max(c.tempo, rep.tempo_s) + 1, rep.recurso)
  }

  /** The value the client gives back. */
  function Next(recurso: int): int {
    if recurso < 0 then 2 else recurso * 2
  }

  function Return(c: Client, pid: int): Client {
    c.(phase := Returning(Release(pid, c.tempo + 1, Next(c.recurso))),
       tempo := c.tempo + 1, recurso := Next(c.recurso))
  }

  /** One round: the release `rel` is two ticks past the larger of the request's stamp and the
      reply's, and gives back twice the value, or two when there was none. */
  predicate IsRound(pid: int, stamp: int, rep: Reply, rel: Release) {
    && rel.tempo_c == (if stamp > rep.tempo_s then stamp else rep.tempo_s) + 2
    && rel.pid_c == pid
    && rel.recurso_n == if rep.recurso < 0 then 2 else 2 * rep.recurso
  }

  /** The variables of the RPC client. */
  class Cliente {
    const pid: int
    var TEMPO: int
    var recurso: int

    constructor (pid: int)
      ensures this.pid == pid && TEMPO == 0
    {
      this.pid := pid;
      TEMPO := 0;
    }

    ghost function View(phase: Phase): Client
      reads this
    {
      Client(phase, TEMPO, recurso)
    }

    /** The stamp of the request call. */
    method Requisita() returns (tempo_c: int)
      modifies this
      ensures View(Calling(tempo_c)) == Send(old(View(Idle)))
      ensures tempo_c == TEMPO == old(TEMPO) + 1
    {
      TEMPO := TEMPO + 1;
      tempo_c := TEMPO;
    }

    /** From the reply of the request call to the argument of the release call. */
    method Processa(rep: Reply) returns (rel: Release)
      modifies this
      ensures View(Returning(rel)) == Return(Receive(old(View(Answered(rep))), rep), pid)
      ensures IsRound(pid, old(TEMPO), rep, rel) && TEMPO == rel.tempo_c
    {
      TEMPO := if TEMPO > rep.tempo_s then TEMPO + 1 else rep.tempo_s + 1;
      recurso := rep.recurso;
      recurso := if recurso < 0 then 2 else recurso * 2;
      TEMPO := TEMPO + 1;
      rel := Release(pid, TEMPO, recurso);
    }

    /** The endless cycle, for as long as request calls are answered. A release is two
        ticks past the larger of the request's stamp and the reply's, and the next request
        is one tick past the release. */
    method Executa(replies: seq<Reply>) returns (stamps: seq<int>, rels: seq<Release>)
      modifies this
      ensures |stamps| == |rels| == |replies|
      ensures replies != [] ==> stamps[0] == old(TEMPO) + 1
      ensures forall k :: 0 <= k < |replies| ==>
                IsRound(pid, stamps[k], replies[k], rels[k])
      ensures forall k :: 0 < k < |replies| ==> stamps[k] == rels[k - 1].tempo_c + 1
      ensures TEMPO == if replies == [] then old(TEMPO) else rels[|replies| - 1].tempo_c
    {
      stamps, rels := [], [];
      for k := 0 to |replies|
        invariant |stamps| == |rels| == k
        invariant k > 0 ==> stamps[0] == old(TEMPO) + 1
        invariant forall j :: 0 <= j < k ==>
                    IsRound(pid, stamps[j], replies[j], rels[j])
        invariant forall j :: 0 < j < k ==> stamps[j] == rels[j - 1].tempo_c + 1
        invariant TEMPO == if k == 0 then old(TEMPO) else rels[k - 1].tempo_c
      {
        ghost var before := TEMPO;
        var tempo_c := Requisita();
        var rel := Processa(replies[k]);
        assert IsRound(pid, tempo_c, replies[k], rel) && tempo_c == before + 1;
        stamps, rels := stamps + [tempo_c], rels + [rel];
      }
    }
  }
}
