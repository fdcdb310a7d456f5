/** The token client: the three moves of its loop, and the nested loops themselves. */
module Client {
  import opened CInt
  import opened Messages

  /** Where the client stands: about to send its REQUEST, in the inner receive loop, or
      past a REPLY_ALLOW and before its RELEASE (the critical section). */
  datatype Phase = Idle | Waiting | Critical

  /** `resp` is the receive buffer, kept from one datagram to the next. */
  datatype State = State(phase: Phase, tempo: int, aguardar: int, resp: Dgram)

  function Start(resp: Dgram): State {
    State(Idle, 0, 0, resp)
  }

  /** Sending a REQUEST; `tempo` must not be INT_MAX, or its increment overflows. */
  function Ask(c: State, pid: int): (State, Dgram) {
    (c.(phase := Waiting, tempo := c.tempo + 1),
     Dgram(-1, REQUEST_TOKEN, Rem(c.tempo + 1, INT_MAX), pid))
  }

  function Buffer(resp: Dgram, d: Dgram, whole: bool): Dgram {
    if whole then d else resp.(rec := d.rec, cod := d.cod)
  }

  /** Receiving a datagram. An ACK for another PID counts towards giving up the wait. */
  function Receive(c: State, pid: int, d: Dgram, whole: bool): State {
    var resp := Buffer(c.resp, d, whole);
    if resp.cod == ACK then
      if resp.pid != pid then
        var count := NarrowChar(c.aguardar + 1);
        State(if count > 3 then Idle else Waiting, c.tempo, count, resp)
      else c.(resp := resp)
    else if resp.cod == REPLY_ALLOW then
      State(Critical, Rem(c.tempo + 1, INT_MAX), c.aguardar, resp)
    else c.(resp := resp)
  }

  /** Leaving the critical section: the value goes up by one and travels in the RELEASE. */
  function Leave(c: State, pid: int): (State, Dgram) {
    var rec := c.resp.rec + 1;
    (State(Idle, c.tempo + 1, 0, c.resp.(rec := rec)),
     Dgram(rec, RELEASE_TOKEN, Rem(c.tempo + 1, INT_MAX), pid))
  }

  /** No signed overflow in the move. */
  predicate CanAsk(c: State) {
    c.phase == Idle && c.tempo < INT_MAX
  }

  predicate CanReceive(c: State, d: Dgram) {
    c.phase == Waiting && (d.cod == REPLY_ALLOW ==> c.tempo < INT_MAX)
  }

  predicate CanLeave(c: State) {
    c.phase == Critical && c.tempo < INT_MAX && c.resp.rec < INT_MAX
  }

  function Rank(c: State): nat {
    match c.phase case Waiting => 0 case Idle => 1 case Critical => 2
  }

  /** The client run over a sequence of received datagrams, up to the point where it waits
      for more or where its next increment would overflow. */
  function Drive(c: State, pid: int, inbox: seq<(Dgram, bool)>): (State, seq<Dgram>)
    decreases |inbox|, Rank(c)
  {
    match c.phase
    case Idle =>
      if !CanAsk(c) then (c, [])
      else
        var (next, d) := Ask(c, pid);
        var (last, sent) := Drive(next, pid, inbox);
        (last, [d] + sent)
    case Waiting =>
      if inbox == [] || !CanReceive(c, inbox[0].0) then (c, [])
      else Drive(Receive(c, pid, inbox[0].0, inbox[0].1), pid, inbox[1..])
    case Critical =>
      if !CanLeave(c) then (c, [])
      else
        var (next, d) := Leave(c, pid);
        var (last, sent) := Drive(next, pid, inbox);
        (last, [d] + sent)
  }

  /** Stepping `Drive` while collecting what was sent. */
  function Resume(sent: seq<Dgram>, c: State, pid: int, inbox: seq<(Dgram, bool)>): (State, seq<Dgram>) {
    var (last, later) := Drive(c, pid, inbox);
    (last, sent + later)
  }

  lemma ResumeSends(sent: seq<Dgram>, c: State, pid: int, inbox: seq<(Dgram, bool)>)
    ensures CanAsk(c) ==>
              var (next, d) := Ask(c, pid);
              Resume(sent, c, pid, inbox) == Resume(sent + [d], next, pid, inbox)
    ensures CanLeave(c) ==>
              var (next, d) := Leave(c, pid);
              Resume(sent, c, pid, inbox) == Resume(sent + [d], next, pid, inbox)
  {
    if CanAsk(c) || CanLeave(c) {
      var (next, d) := if c.phase == Idle then Ask(c, pid) else Leave(c, pid);
      var later := Drive(next, pid, inbox).1;
      assert sent + ([d] + later) == (sent + [d]) + later;
    }
  }

  lemma ResumeStops(sent: seq<Dgram>, c: State, pid: int, inbox: seq<(Dgram, bool)>)
    requires Drive(c, pid, inbox) == (c, [])
    ensures Resume(sent, c, pid, inbox) == (c, sent)
  {
    assert sent + [] == sent;
  }

  /** The program's variables and its two nested loops. */
  class Cliente {
    const PID: int
    var TEMPO: int
    var aguardar: int
    var resp: Dgram

    ghost function View(phase: Phase): State
      reads this
    {
      State(phase, TEMPO, aguardar, resp)
    }

    constructor (pid: int, resp: Dgram)
      ensures PID == pid && View(Idle) == Start(resp)
    {
      PID := pid;
      TEMPO := 0;
      aguardar := 0;
      this.resp := resp;
    }

    /** The outer loop, for as long as datagrams arrive and no increment overflows. */
    method Executa(inbox: seq<(Dgram, bool)>) returns (sent: seq<Dgram>, phase: Phase)
      modifies this
      ensures (View(phase), sent) == Drive(old(View(Idle)), PID, inbox)
    {
      ghost var run := Drive(View(Idle), PID, inbox);
      sent := [];
      var k := 0;
      var done := false;
      assert [] + run.1 == run.1 && inbox[0..] == inbox;
      while true
        invariant 0 <= k <= |inbox|
        invariant run == Resume(sent, View(Idle), PID, inbox[k..])
        decreases |inbox| - k
      {
        phase := Idle;
        if TEMPO >= INT_MAX {
          ResumeStops(sent, View(Idle), PID, inbox[k..]);
          return;
        }
        ResumeSends(sent, View(Idle), PID, inbox[k..]);
        TEMPO := TEMPO + 1;
        sent := sent + [Dgram(-1, REQUEST_TOKEN, Rem(TEMPO, INT_MAX), PID)];
        k, sent, phase, done := Aguarda(inbox, k, sent, run);
        if done {
          return;
        }
      }
    }

    /** The inner loop: wait through ACKs for a REPLY_ALLOW, then use the token and give it
        back. It ends with the RELEASE sent, or with the wait given up; `done` tells that
        the run stops inside it. */
    method Aguarda(inbox: seq<(Dgram, bool)>, start: nat, already: seq<Dgram>, ghost run: (State, seq<Dgram>))
      returns (k: nat, sent: seq<Dgram>, phase: Phase, done: bool)
      requires start <= |inbox|
      requires run == Resume(already, View(Waiting), PID, inbox[start..])
      modifies this
      ensures start <= k <= |inbox|
      ensures done ==> run == (View(phase), sent)
      ensures !done ==> start < k && run == Resume(sent, View(Idle), PID, inbox[k..])
    {
      sent := already;
      k := start;
      while true
        invariant start <= k <= |inbox|
        invariant run == Resume(sent, View(Waiting), PID, inbox[k..])
        decreases |inbox| - k
      {
        if k == |inbox| || (inbox[k].0.cod == REPLY_ALLOW && TEMPO >= INT_MAX) {
          ResumeStops(sent, View(Waiting), PID, inbox[k..]);
          return k, sent, Waiting, true;
        }
        assert inbox[k..][0] == inbox[k] && inbox[k..][1..] == inbox[k + 1..];
        resp := if inbox[k].1 then inbox[k].0 else resp.(rec := inbox[k].0.rec, cod := inbox[k].0.cod);
        k := k + 1;
        if resp.cod == ACK {
          if resp.pid != PID {
            aguardar := NarrowChar(aguardar + 1);
            if aguardar > 3 {
              return k, sent, Idle, false;
            }
          }
        } else if resp.cod == REPLY_ALLOW {
          TEMPO := TEMPO + 1;
          TEMPO := Rem(TEMPO, INT_MAX);
          if TEMPO >= INT_MAX || resp.rec >= INT_MAX {
            ResumeStops(sent, View(Critical), PID, inbox[k..]);
            return k, sent, Critical, true;
          }
          ResumeSends(sent, View(Critical), PID, inbox[k..]);
          resp := resp.(rec := resp.rec + 1);
          TEMPO := TEMPO + 1;
          sent := sent + [Dgram(resp.rec, RELEASE_TOKEN, Rem(TEMPO, INT_MAX), PID)];
          aguardar := 0;
          return k, sent, Idle, false;
        }
      }
    }
  }
}
