/** The server's clock: always in range, and a Lamport clock exactly until it wraps. */
module ServerClock {
  import opened CInt
  import opened Messages
  import opened Server

  predicate StampsInRange(sent: seq<Msg>) {
    forall m :: m in sent ==> 0 <= m.d.tempo < INT_MAX
  }

  /** The clock stays in range at every loop head, and so does every stamp sent. */
  lemma {:induction false} ClockInRange(s: State, n: int, junk: int, inbox: seq<(nat, Dgram)>)
    requires 0 <= s.tempo <= INT_MAX && InRange(inbox)
    ensures var (last, sent) := Serve(s, n, junk, inbox);
            0 <= last.tempo <= INT_MAX && StampsInRange(sent)
    decreases |inbox|
  {
    if inbox != [] {
      var (next, sent) := Handle(s, n, junk, inbox[0].0, inbox[0].1);
      assert 0 <= Merge(s.tempo, inbox[0].1.tempo) < INT_MAX;
      assert 0 <= next.tempo <= INT_MAX && StampsInRange(sent);
      ClockInRange(next, n, junk, inbox[1..]);
    }
  }

  /** The logical clock without the remainder: past the stamp received, then one tick for
      each datagram sent. */
  function Lamport(clock: int, s: State, n: int, junk: int, inbox: seq<(nat, Dgram)>): int
    decreases |inbox|
  {
    if inbox == [] then clock
    else
      var (next, sent) := Handle(s, n, junk, inbox[0].0, inbox[0].1);
      var stamp := inbox[0].1.tempo;
      Lamport((if clock > stamp then clock else stamp) + |sent|, next, n, junk, inbox[1..])
  }

  lemma {:induction false} LamportGrows(clock: int, s: State, n: int, junk: int, inbox: seq<(nat, Dgram)>)
    ensures clock <= Lamport(clock, s, n, junk, inbox)
    decreases |inbox|
  {
    if inbox != [] {
      var (next, sent) := Handle(s, n, junk, inbox[0].0, inbox[0].1);
      var stamp := inbox[0].1.tempo;
      LamportGrows((if clock > stamp then clock else stamp) + |sent|, next, n, junk, inbox[1..]);
    }
  }

  /** Every stamp is larger than the one sent before it, and the first larger than `low`. */
  predicate Increasing(low: int, sent: seq<Msg>)
    decreases |sent|
  {
    sent != [] ==> low < sent[0].d.tempo && Increasing(sent[0].d.tempo, sent[1..])
  }

  lemma {:induction false} IncreasingConcat(low: int, first: seq<Msg>, second: seq<Msg>)
    ensures Increasing(low, first + second)
       <==> Increasing(low, first) &&
            Increasing(if first == [] then low else first[|first| - 1].d.tempo, second)
    decreases |first|
  {
    if first == [] {
      assert first + second == second;
    } else {
      assert (first + second)[1..] == first[1..] + second;
      IncreasingConcat(first[0].d.tempo, first[1..], second);
    }
  }

  /** One turn: the ideal clock stays below the limit exactly when the stamps of the turn
      increase, and then the program's clock is the ideal one. */
  lemma TurnIncreases(s: State, n: int, junk: int, from: nat, d: Dgram)
    requires 0 <= s.tempo < INT_MAX && d.tempo < INT_MAX
    ensures var (next, sent) := Handle(s, n, junk, from, d);
            var ideal := (if s.tempo > d.tempo then s.tempo else d.tempo) + |sent|;
            && sent != []
            && (ideal < INT_MAX <==> Increasing(s.tempo, sent))
            && (ideal < INT_MAX ==> next.tempo == ideal == sent[|sent| - 1].d.tempo)
  {
    var (next, sent) := Handle(s, n, junk, from, d);
    if |sent| == 2 {
      assert sent[1..] == [sent[1]];
      assert Increasing(sent[0].d.tempo, sent[1..]) <==> sent[0].d.tempo < sent[1].d.tempo;
    } else {
      assert sent[1..] == [];
    }
  }

  /** The stamps the server sends strictly increase over a run if and only if the
      unbounded logical clock of that run stays below INT_MAX. */
  lemma {:induction false} StampsIncreaseIffNoWrap(s: State, n: int, junk: int, inbox: seq<(nat, Dgram)>)
    requires 0 <= s.tempo < INT_MAX && InRange(inbox)
    ensures var (last, sent) := Serve(s, n, junk, inbox);
            var ideal := Lamport(s.tempo, s, n, junk, inbox);
            && (ideal < INT_MAX <==> Increasing(s.tempo, sent))
            && (ideal < INT_MAX ==> last.tempo == ideal)
    decreases |inbox|
  {
    if inbox != [] {
      var d := inbox[0].1;
      var (next, sent) := Handle(s, n, junk, inbox[0].0, d);
      var ideal := (if s.tempo > d.tempo then s.tempo else d.tempo) + |sent|;
      TurnIncreases(s, n, junk, inbox[0].0, d);
      var (last, later) := Serve(next, n, junk, inbox[1..]);
      IncreasingConcat(s.tempo, sent, later);
      if ideal < INT_MAX {
        StampsIncreaseIffNoWrap(next, n, junk, inbox[1..]);
      } else {
        LamportGrows(ideal, next, n, junk, inbox[1..]);
      }
    }
  }

  /** On a run that does not wrap, the clock ends above every stamp received. */
  lemma {:induction false} ClockPassesEveryStamp(s: State, n: int, junk: int, inbox: seq<(nat, Dgram)>, i: nat)
    requires 0 <= s.tempo < INT_MAX && InRange(inbox) && i < |inbox|
    requires Lamport(s.tempo, s, n, junk, inbox) < INT_MAX
    ensures inbox[i].1.tempo < Serve(s, n, junk, inbox).0.tempo
    decreases |inbox|
  {
    var d := inbox[0].1;
    var (next, sent) := Handle(s, n, junk, inbox[0].0, d);
    var ideal := (if s.tempo > d.tempo then s.tempo else d.tempo) + |sent|;
    TurnIncreases(s, n, junk, inbox[0].0, d);
    LamportGrows(ideal, next, n, junk, inbox[1..]);
    if i == 0 {
      StampsIncreaseIffNoWrap(next, n, junk, inbox[1..]);
    } else {
      ClockPassesEveryStamp(next, n, junk, inbox[1..], i - 1);
    }
  }
}
