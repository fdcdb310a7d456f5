/** The token server: its state, what one turn of its loop computes, and the loop itself. */
module Server {
  import opened CInt
  import opened Wrappers
  import opened Messages
  import opened QueueSpec
  import opened LinkedQueue

  /** `flag` is the holder's PID narrowed to a char, or -1 when the token is free. */
  datatype State = State(tempo: int, flag: int, valor: int, fila: seq<Item<nat>>)

  const Start: State := State(0, -1, 30, [])

  function Merge(tempo: int, stamp: int): int {
    if tempo > stamp then Rem(tempo + 1, INT_MAX) else Rem(stamp + 1, INT_MAX)
  }

  /** The merge adds one to the stamp as an `int`, unless the clock is ahead of it. */
  predicate Defined(s: State, d: Dgram) {
    s.tempo > d.tempo || d.tempo < INT_MAX
  }

  /** REPLY_ALLOW for `pid` at address `to`; `tempo` is the clock after its increment. */
  function Allow(to: nat, valor: int, tempo: int, pid: int): Msg {
    ToClient(to, Dgram(valor, REPLY_ALLOW, Rem(tempo, INT_MAX), pid), false)
  }

  /** REQUEST_TOKEN, once the clock is merged: grant a free token, queue otherwise. */
  function OnRequest(s: State, n: int, from: nat, d: Dgram): (State, seq<Msg>) {
    if s.flag == -1 then
      (s.(tempo := s.tempo + 1, flag := NarrowChar(d.pid)), [Allow(from, s.valor, s.tempo + 1, d.pid)])
    else
      (s.(fila := Insere(s.fila, n, Item(d.pid, d.tempo, from))), [])
  }

  /** RELEASE_TOKEN, once the clock is merged: the new value goes to the head of the queue. */
  function OnRelease(s: State, d: Dgram): (State, seq<Msg>) {
    if s.fila == [] then
      (s.(valor := d.rec, flag := -1), [])
    else
      var first := s.fila[0];
      (State(s.tempo + 1, NarrowChar(first.pid), d.rec, s.fila[1..]),
       [Allow(first.addr, d.rec, s.tempo + 1, first.pid)])
  }

  /** One turn of the loop on datagram `d` from address `from`: the new state and what is
      sent. `n` is the capacity of the queue, `junk` the `rec` field of the ACK buffer,
      which the program never sets. */
  function Handle(s: State, n: int, junk: int, from: nat, d: Dgram): (r: (State, seq<Msg>)) {
    var merged := s.(tempo := Merge(s.tempo, d.tempo));
    var ack := ToClient(from, Dgram(junk, ACK, merged.tempo, d.pid), true);
    var (next, allow) :=
      if d.cod == REQUEST_TOKEN then OnRequest(merged, n, from, d)
      else if d.cod == RELEASE_TOKEN then OnRelease(merged, d)
      else (merged, []);
    (next, [ack] + allow)
  }

  // What a turn promises, in terms of the datagram and of the state before and after it.

  /** The token goes to `pid` at address `to`, one tick after the ACK stamped `clock`, with
      the value on record. */
  predicate HandsOver(after: State, clock: int, sent: seq<Msg>, to: nat, pid: int) {
    && |sent| == 2
    && sent[1] == ToClient(to, Dgram(after.valor, REPLY_ALLOW, Rem(clock + 1, INT_MAX), pid), false)
    && after.tempo == clock + 1 && after.flag == NarrowChar(pid)
  }

  /** The sender is acknowledged with its own PID and a stamp one past the larger of the
      clock and its stamp. A REQUEST gets a free token, or is queued in place under its own
      stamp and address, or refused. A RELEASE stores its value and hands the token to the
      head of the queue, if there is one. */
  ghost predicate Turn(before: State, after: State, n: int, junk: int, from: nat, d: Dgram, sent: seq<Msg>) {
    var clock := Rem((if before.tempo > d.tempo then before.tempo else d.tempo) + 1, INT_MAX);
    && sent != [] && sent[0] == ToClient(from, Dgram(junk, ACK, clock, d.pid), true)
    && (d.cod == REQUEST_TOKEN && before.flag == -1 ==>
          HandsOver(after, clock, sent, from, d.pid)
          && after.valor == before.valor && after.fila == before.fila)
    && (d.cod == REQUEST_TOKEN && before.flag != -1 ==>
          |sent| == 1 && after == State(clock, before.flag, before.valor, after.fila)
          && QueuedOrRefused(before.fila, after.fila, n, Item(d.pid, d.tempo, from)))
    && (d.cod == RELEASE_TOKEN && before.fila == [] ==>
          |sent| == 1 && after == State(clock, -1, d.rec, []))
    && (d.cod == RELEASE_TOKEN && before.fila != [] ==>
          HandsOver(after, clock, sent, before.fila[0].addr, before.fila[0].pid)
          && after.valor == d.rec && after.fila == before.fila[1..])
    && (d.cod != REQUEST_TOKEN && d.cod != RELEASE_TOKEN ==>
          |sent| == 1 && after == before.(tempo := clock))
  }

  lemma HandleIsATurn(s: State, n: int, junk: int, from: nat, d: Dgram)
    requires Sorted(s.fila)
    ensures var (next, sent) := Handle(s, n, junk, from, d);
            Turn(s, next, n, junk, from, d, sent)
  {
    InsereQueuesInPlace(s.fila, n, Item(d.pid, d.tempo, from));
  }

  /** A turn queues nothing but the request it handles, and sends to clients only. */
  lemma TurnMembers(before: State, after: State, n: int, junk: int, from: nat, d: Dgram, sent: seq<Msg>)
    requires Turn(before, after, n, junk, from, d, sent)
    ensures forall x :: x in after.fila ==>
              x in before.fila || (d.cod == REQUEST_TOKEN && x == Item(d.pid, d.tempo, from))
    ensures forall m :: m in sent ==> m.ToClient?
  {
  }

  predicate InRange(inbox: seq<(nat, Dgram)>) {
    forall i :: 0 <= i < |inbox| ==> inbox[i].1.tempo < INT_MAX
  }

  /** A run of the loop over a sequence of received datagrams. */
  function Serve(s: State, n: int, junk: int, inbox: seq<(nat, Dgram)>): (State, seq<Msg>)
    decreases |inbox|
  {
    if inbox == [] then (s, [])
    else
      var (next, sent) := Handle(s, n, junk, inbox[0].0, inbox[0].1);
      var (last, later) := Serve(next, n, junk, inbox[1..]);
      (last, sent + later)
  }

  /** The program's variables, with the linked queue, and its receive loop. */
  class Servidor {
    var TEMPO: int
    var flag: int
    var valor: int
    const fila: Fila<nat>
    // The field of the ACK buffer that is sent without ever being written.
    const junk: int

    ghost predicate Valid()
      reads this, fila, fila.Repr
    {
      fila.Valid() && this !in fila.Repr && fila.N == 10 && WellQueued(fila.Contents(), 10)
    }

    ghost function View(): State
      reads this, fila
    {
      State(TEMPO, flag, valor, fila.Contents())
    }

    constructor (junk: int)
      ensures Valid() && fresh(fila.Repr) && this.junk == junk
      ensures View() == Start
    {
      TEMPO := 0;
      fila := new Fila<nat>.Init(10);
      valor := 30;
      flag := -1;
      this.junk := junk;
    }

    method Concede(to: nat, pid: int) returns (rep: Msg)
      requires Valid()
      modifies this
      ensures Valid() && View() == old(View()).(tempo := old(TEMPO) + 1, flag := NarrowChar(pid))
      ensures rep == Allow(to, valor, TEMPO, pid)
    {
      TEMPO := TEMPO + 1;
      rep := ToClient(to, Dgram(valor, REPLY_ALLOW, Rem(TEMPO, INT_MAX), pid), false);
      flag := NarrowChar(pid);
    }

    method TrataRequest(from: nat, req: Dgram) returns (sent: seq<Msg>)
      requires Valid()
      modifies this, fila.Repr
      ensures Valid() && fresh(fila.Repr - old(fila.Repr))
      ensures (View(), sent) == OnRequest(old(View()), 10, from, req)
      ensures old(flag) != -1 ==>
                QueuedOrRefused(old(fila.Contents()), fila.Contents(), 10, Item(req.pid, req.tempo, from))
    {
      InsereQueuesInPlace(fila.Contents(), 10, Item(req.pid, req.tempo, from));
      if flag == -1 {
        var rep := Concede(from, req.pid);
        sent := [rep];
      } else {
        InsereKeepsWellQueued(fila.Contents(), 10, Item(req.pid, req.tempo, from));
        var accepted := fila.Insere(req.pid, req.tempo, from);
        sent := [];
      }
    }

    method TrataRelease(req: Dgram) returns (sent: seq<Msg>)
      requires Valid()
      modifies this, fila.Repr
      ensures Valid() && fresh(fila.Repr - old(fila.Repr))
      ensures (View(), sent) == OnRelease(old(View()), req)
    {
      valor := req.rec;
      flag := -1;
      if fila.tamanho == 0 {
        assert fila.Contents() == [];
        sent := [];
      } else {
        assert fila.Contents() != [];
        InsereKeepsWellQueued(fila.Contents(), 10, fila.Contents()[0]);
        var cliente := fila.RemoveItem();
        var rep := Concede(cliente.value.addr, cliente.value.pid);
        sent := [rep];
      }
    }

    /** One turn of the loop. */
    method Atende(from: nat, req: Dgram) returns (sent: seq<Msg>)
      requires Valid() && Defined(View(), req)
      modifies this, fila.Repr
      ensures Valid() && fresh(fila.Repr - old(fila.Repr))
      ensures (View(), sent) == Handle(old(View()), 10, junk, from, req)
      ensures Turn(old(View()), View(), 10, junk, from, req, sent)
    {
      TEMPO := if TEMPO > req.tempo then Rem(TEMPO + 1, INT_MAX) else Rem(req.tempo + 1, INT_MAX);
      var ack := ToClient(from, Dgram(junk, ACK, TEMPO, req.pid), true);
      sent := [];
      if req.cod == REQUEST_TOKEN {
        sent := TrataRequest(from, req);
      } else if req.cod == RELEASE_TOKEN {
        sent := TrataRelease(req);
      }
      sent := [ack] + sent;
      HandleIsATurn(old(View()), 10, junk, from, req);
    }

    /** The receive loop, for as long as datagrams arrive. */
    method Executa(inbox: seq<(nat, Dgram)>) returns (sent: seq<Msg>)
      requires Valid() && InRange(inbox)
      modifies this, fila.Repr
      ensures Valid() && fresh(fila.Repr - old(fila.Repr))
      ensures (View(), sent) == Serve(old(View()), 10, junk, inbox)
    {
      sent := [];
      assert inbox[0..] == inbox && forall later: seq<Msg> :: [] + later == later;
      for i := 0 to |inbox|
        invariant Valid() && fresh(fila.Repr - old(fila.Repr))
        invariant Serve(old(View()), 10, junk, inbox) ==
                  var (last, later) := Serve(View(), 10, junk, inbox[i..]);
                  (last, sent + later)
      {
        var (from, req) := inbox[i];
        ghost var before := View();
        var more := Atende(from, req);
        assert inbox[i..][0] == inbox[i] && inbox[i..][1..] == inbox[i + 1..];
        ghost var later := Serve(View(), 10, junk, inbox[i + 1..]).1;
        assert sent + (more + later) == (sent + more) + later;
        sent := sent + more;
      }
      assert sent + [] == sent;
    }
  }
}
