/** The stamps of a client's rounds. */
module ClientStamps {
  import opened CInt
  import opened Messages
  import opened Client

  /** The last round whose stamps all fit: 3 * LAST_ROUND == INT_MAX - 1. */
  const LAST_ROUND: int := 715827882

  /** What the server sends this client: its own ACKs and REPLY_ALLOWs. */
  predicate FromServer(pid: int, inbox: seq<(Dgram, bool)>) {
    forall i :: 0 <= i < |inbox| ==>
      var (d, whole) := inbox[i];
      if whole then d.cod == ACK && d.pid == pid else d.cod == REPLY_ALLOW
  }

  /** The code and stamp of the `i`-th datagram sent, counting from zero: a REQUEST with
      3k - 2 and then a RELEASE with 3k in round k. */
  function Expected(i: nat): (int, int) {
    if i % 2 == 0 then (REQUEST_TOKEN, 3 * (i / 2) + 1) else (RELEASE_TOKEN, 3 * (i / 2) + 3)
  }

  /** How many datagrams the client has sent when it stands in a given phase and clock. */
  predicate SentSoFar(c: State, i: nat) {
    && c.aguardar == 0
    && c.tempo == 3 * (i / 2) + (if c.phase == Critical then 2 else if c.phase == Waiting then 1 else 0)
    && (i % 2 == 0 <==> c.phase == Idle)
    && c.tempo <= INT_MAX
  }

  lemma {:induction false} StampsFrom(c: State, pid: int, inbox: seq<(Dgram, bool)>, i: nat, j: nat)
    requires FromServer(pid, inbox) && SentSoFar(c, i)
    requires j < |Drive(c, pid, inbox).1|
    ensures (i + j) / 2 <= LAST_ROUND
    ensures Drive(c, pid, inbox).1[j].cod == Expected(i + j).0
    ensures Drive(c, pid, inbox).1[j].tempo == Rem(Expected(i + j).1, INT_MAX)
    ensures (i + j) / 2 == LAST_ROUND ==> (i + j) % 2 == 0
    decreases |inbox|, Rank(c)
  {
    if c.phase == Waiting {
      assert FromServer(pid, inbox[1..]);
      StampsFrom(Receive(c, pid, inbox[0].0, inbox[0].1), pid, inbox[1..], i, j);
    } else if j > 0 {
      var (next, d) := if c.phase == Idle then Ask(c, pid) else Leave(c, pid);
      StampsFrom(next, pid, inbox, i + 1, j - 1);
    }
  }

  /** Round by round, from the start of the program: as long as the round number is at most
      LAST_ROUND the stamps are exactly 3k - 2 and 3k; the REQUEST of the next round is
      stamped zero and is the last datagram the client can send. */
  lemma StampsExactUntilLastRound(resp: Dgram, pid: int, inbox: seq<(Dgram, bool)>, j: nat)
    requires FromServer(pid, inbox)
    requires j < |Drive(Start(resp), pid, inbox).1|
    ensures var d := Drive(Start(resp), pid, inbox).1[j];
            && d.cod == Expected(j).0
            && (d.tempo == Expected(j).1 <==> j / 2 + 1 <= LAST_ROUND)
            && (j / 2 + 1 > LAST_ROUND ==> d.tempo == 0 && j == 2 * LAST_ROUND)
  {
    StampsFrom(Start(resp), pid, inbox, 0, j);
    var expected := Expected(j).1;
    if j / 2 < LAST_ROUND {
      assert 0 <= expected < INT_MAX;
    } else {
      assert expected == INT_MAX;
    }
  }

  // The retry branch, for whoever would answer with foreign ACKs.

  predicate ForeignAcks(pid: int, inbox: seq<(Dgram, bool)>) {
    forall i :: 0 <= i < |inbox| ==> inbox[i].1 && inbox[i].0.cod == ACK && inbox[i].0.pid != pid
  }

  /** How far a count is past the three foreign ACKs that the client puts up with. */
  function Excess(count: int): nat {
    if count > 3 then count - 3 else 0
  }

  lemma {:induction false} RetriesFrom(c: State, pid: int, inbox: seq<(Dgram, bool)>)
    requires ForeignAcks(pid, inbox) && c.phase == Waiting
    requires 0 <= c.aguardar && c.aguardar + |inbox| <= 127 && c.tempo + |inbox| < INT_MAX
    ensures |Drive(c, pid, inbox).1| == Excess(c.aguardar + |inbox|) - Excess(c.aguardar)
    decreases |inbox|
  {
    if inbox != [] {
      var next := Receive(c, pid, inbox[0].0, inbox[0].1);
      assert next.aguardar == c.aguardar + 1;
      assert ForeignAcks(pid, inbox[1..]);
      if next.phase == Idle {
        next := Ask(next, pid).0;
      }
      RetriesFrom(next, pid, inbox[1..]);
    }
  }

  /** The first three foreign ACKs are ignored. Giving up does not reset the counter, so
      from the fourth on each one repeats the REQUEST, until the counter wraps. */
  lemma RetriesOnForeignAcks(resp: Dgram, pid: int, inbox: seq<(Dgram, bool)>)
    requires ForeignAcks(pid, inbox) && |inbox| <= 127
    ensures |Drive(Start(resp), pid, inbox).1| == 1 + Excess(|inbox|)
  {
    RetriesFrom(Ask(Start(resp), pid).0, pid, inbox);
  }

  /** The counter is a char: the 128th foreign ACK makes it negative and is ignored again. */
  lemma RetryCounterWraps(c: State, pid: int, d: Dgram)
    requires c.phase == Waiting && c.aguardar == 127 && d.cod == ACK && d.pid != pid
    ensures Receive(c, pid, d, true).phase == Waiting && Receive(c, pid, d, true).aguardar == -128
  {
  }
}
