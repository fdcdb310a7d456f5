/** The standalone queue program: no duplicate check, any interleaving of insertions and
    removals, and the driver that fills the queue and then drains it. */
module FillDrain {
  import opened Wrappers
  import opened QueueSpec
  import opened LinkedQueue

  datatype Op<A> = Add(item: Item<A>) | Remove

  /** A queue with the history of what it accepted and gave back. */
  datatype Log<A> = Log(queue: seq<Item<A>>, accepted: seq<Item<A>>, removed: seq<Item<A>>)

  function Apply<A>(log: Log<A>, n: int, op: Op<A>): Log<A> {
    match op
    case Add(item) =>
      if |log.queue| < n then
        Log(Insert(log.queue, item), log.accepted + [item], log.removed)
      else log
    case Remove =>
      if log.queue != [] then
        Log(log.queue[1..], log.accepted, log.removed + [log.queue[0]])
      else log
  }

  function Run<A>(log: Log<A>, n: int, ops: seq<Op<A>>): Log<A>
    decreases |ops|
  {
    if ops == [] then log else Run(Apply(log, n, ops[0]), n, ops[1..])
  }

  const Empty: Log<int> := Log([], [], [])

  ghost predicate Conserved<A>(log: Log<A>) {
    Sorted(log.queue) && multiset(log.accepted) == multiset(log.removed) + multiset(log.queue)
  }

  lemma ApplyConserves<A>(log: Log<A>, n: int, op: Op<A>)
    requires Conserved(log)
    ensures Conserved(Apply(log, n, op))
  {
    match op
    case Add(item) =>
      InsertKeepsOrder(log.queue, item);
      InsertContents(log.queue, item);
    case Remove =>
      if log.queue != [] {
        assert log.queue == [log.queue[0]] + log.queue[1..];
      }
  }

  lemma {:induction false} RunConserves<A>(log: Log<A>, n: int, ops: seq<Op<A>>)
    requires Conserved(log)
    ensures Conserved(Run(log, n, ops))
    decreases |ops|
  {
    if ops != [] {
      ApplyConserves(log, n, ops[0]);
      RunConserves(Apply(log, n, ops[0]), n, ops[1..]);
    }
  }

  /** Queue conservation: whatever the interleaving, what was accepted is what was given
      back plus what still waits, duplicates included, and the queue is in time order. */
  lemma Conservation(n: int, ops: seq<Op<int>>)
    ensures var log := Run(Empty, n, ops);
            && multiset(log.accepted) == multiset(log.removed) + multiset(log.queue)
            && Sorted(log.queue)
  {
    RunConserves(Empty, n, ops);
  }

  /** Each removal, anywhere in a run, takes an item with the smallest stamp waiting. */
  lemma RemovalTakesAMinimum(n: int, ops: seq<Op<int>>)
    ensures var before := Run(Empty, n, ops);
            var after := Apply(before, n, Remove);
            before.queue != [] ==>
              exists least ::
                && after.removed == before.removed + [least]
                && multiset(before.queue) == multiset(after.queue) + multiset{least}
                && forall x :: x in before.queue ==> least.tempo <= x.tempo
  {
    RunConserves(Empty, n, ops);
    var before := Run(Empty, n, ops);
    if before.queue != [] {
      var least := before.queue[0];
      assert before.queue == [least] + before.queue[1..];
      assert Apply(before, n, Remove).removed == before.removed + [least];
    }
  }

  function Fill<A>(q: seq<Item<A>>, n: int, items: seq<Item<A>>): seq<Item<A>>
    decreases |items|
  {
    if items == [] then q
    else Fill(if |q| < n then Insert(q, items[0]) else q, n, items[1..])
  }

  function FillOps<A>(items: seq<Item<A>>): seq<Op<A>> {
    if items == [] then [] else [Add(items[0])] + FillOps(items[1..])
  }

  function DrainOps<A>(k: nat): seq<Op<A>> {
    if k == 0 then [] else [Remove] + DrainOps(k - 1)
  }

  lemma RunFirst<A>(log: Log<A>, n: int, op: Op<A>, ops: seq<Op<A>>)
    ensures Run(log, n, [op] + ops) == Run(Apply(log, n, op), n, ops)
  {
    assert ([op] + ops)[1..] == ops;
  }

  lemma {:induction false} RunConcat<A>(log: Log<A>, n: int, first: seq<Op<A>>, then_: seq<Op<A>>)
    ensures Run(log, n, first + then_) == Run(Run(log, n, first), n, then_)
    decreases |first|
  {
    if first == [] {
      assert first + then_ == then_;
    } else {
      assert (first + then_)[1..] == first[1..] + then_;
      RunConcat(Apply(log, n, first[0]), n, first[1..], then_);
    }
  }

  /** The items that still find room. */
  function Taken<A>(room: nat, items: seq<Item<A>>): seq<Item<A>>
    decreases room
  {
    if room == 0 || items == [] then [] else [items[0]] + Taken(room - 1, items[1..])
  }

  lemma {:induction false} TakenIsAPrefix<A>(room: nat, items: seq<Item<A>>)
    ensures Taken(room, items) == if |items| <= room then items else items[..room]
    decreases room
  {
    if room > 0 && items != [] {
      TakenIsAPrefix(room - 1, items[1..]);
    }
  }

  lemma {:induction false} FillingFull<A>(log: Log<A>, n: int, items: seq<Item<A>>)
    requires |log.queue| >= n
    ensures Run(log, n, FillOps(items)) == log && Fill(log.queue, n, items) == log.queue
    decreases |items|
  {
    if items != [] {
      RunFirst(log, n, Add(items[0]), FillOps(items[1..]));
      FillingFull(log, n, items[1..]);
    }
  }

  lemma {:induction false} Filling<A>(log: Log<A>, n: int, items: seq<Item<A>>)
    requires |log.queue| <= n
    ensures var taken := Taken(n - |log.queue|, items);
            Run(log, n, FillOps(items)) == Log(Fill(log.queue, n, items), log.accepted + taken, log.removed)
    decreases |items|
  {
    if |log.queue| == n {
      FillingFull(log, n, items);
      assert log.accepted + [] == log.accepted;
    } else if items != [] {
      var next := Apply(log, n, Add(items[0]));
      RunFirst(log, n, Add(items[0]), FillOps(items[1..]));
      Filling(next, n, items[1..]);
      var rest := Taken(n - |next.queue|, items[1..]);
      assert log.accepted + ([items[0]] + rest) == next.accepted + rest;
    } else {
      assert log.accepted + [] == log.accepted;
    }
  }

  lemma {:induction false} FillSize<A>(q: seq<Item<A>>, n: int, items: seq<Item<A>>)
    requires |q| <= n
    ensures |Fill(q, n, items)| == |q| + |Taken(n - |q|, items)|
    decreases |items|
  {
    if items != [] {
      FillSize(if |q| < n then Insert(q, items[0]) else q, n, items[1..]);
    }
  }

  lemma {:induction false} Draining<A>(log: Log<A>, n: int, k: nat)
    requires |log.queue| <= k
    ensures Run(log, n, DrainOps(k)) == Log([], log.accepted, log.removed + log.queue)
    decreases k
  {
    if k > 0 {
      RunFirst(log, n, Remove, DrainOps(k - 1));
      Draining(Apply(log, n, Remove), n, k - 1);
    }
  }

  function FirstOf<A>(n: nat, items: seq<Item<A>>): seq<Item<A>> {
    if |items| <= n then items else items[..n]
  }

  lemma FilledLog(n: nat, items: seq<Item<int>>)
    ensures Run(Empty, n, FillOps(items)) == Log(Fill([], n, items), FirstOf(n, items), [])
    ensures |Fill([], n, items)| <= |items|
  {
    Filling(Empty, n, items);
    FillSize<int>([], n, items);
    TakenIsAPrefix(n, items);
    assert [] + Taken(n, items) == Taken(n, items);
  }

  lemma FillKeepsOrderAndItems(n: nat, items: seq<Item<int>>)
    ensures Sorted(Fill([], n, items))
    ensures multiset(Fill([], n, items)) == multiset(FirstOf(n, items))
  {
    FilledLog(n, items);
    RunConserves(Empty, n, FillOps(items));
  }

  /** Filling and then draining gives back, in time order, exactly the items accepted:
      the first `n` offered. */
  lemma FillThenDrain(n: nat, items: seq<Item<int>>, k: nat)
    requires |items| <= k
    ensures var log := Run(Empty, n, FillOps(items) + DrainOps(k));
            && log.queue == []
            && log.accepted == FirstOf(n, items)
            && multiset(log.removed) == multiset(log.accepted)
            && Sorted(log.removed)
            && log.removed == Fill([], n, items)
  {
    FilledLog(n, items);
    FillKeepsOrderAndItems(n, items);
    RunConcat(Empty, n, FillOps(items), DrainOps(k));
    Draining(Run(Empty, n, FillOps(items)), n, k);
    assert [] + Fill([], n, items) == Fill([], n, items);
  }

  /** The items the driver offers: PIDs 1, 2, 3, ... with the drawn stamps. */
  function Offered(draws: seq<int>, caddr: int): (items: seq<Item<int>>)
    ensures |items| == |draws|
  {
    seq(|draws|, i requires 0 <= i < |draws| => Item(i + 1, draws[i], caddr))
  }

  lemma {:induction false} FillSnoc<A>(q: seq<Item<A>>, n: int, items: seq<Item<A>>, item: Item<A>)
    ensures var full := Fill(q, n, items);
            Fill(q, n, items + [item]) == if |full| < n then Insert(full, item) else full
    decreases |items|
  {
    if items == [] {
      assert (items + [item])[1..] == [];
    } else {
      assert (items + [item])[1..] == items[1..] + [item];
      FillSnoc(if |q| < n then Insert(q, items[0]) else q, n, items[1..], item);
    }
  }

  lemma DriverQueue(draws: seq<int>, caddr: int, i: nat)
    requires i < |draws| <= 10
    ensures Fill([], 10, Offered(draws[..i + 1], caddr))
         == Insert(Fill([], 10, Offered(draws[..i], caddr)), Item(i + 1, draws[i], caddr))
  {
    var items := Offered(draws[..i], caddr);
    assert Offered(draws[..i + 1], caddr) == items + [Item(i + 1, draws[i], caddr)];
    FillSnoc([], 10, items, Item(i + 1, draws[i], caddr));
    FillSize<int>([], 10, items);
    TakenIsAPrefix(10, items);
  }

  /** The driver's first loop: ten insertions with drawn stamps. */
  method Preenche(fila: Fila<int>, draws: seq<int>, caddr: int)
    requires |draws| == 10 && fila.Valid() && fila.N == 10 && fila.Contents() == []
    modifies fila.Repr
    ensures fila.Valid() && fresh(fila.Repr - old(fila.Repr))
    ensures fila.Contents() == Fill([], 10, Offered(draws, caddr))
    ensures |fila.Contents()| == 10
  {
    var i, j := 0, 0;
    while i < 20
      invariant 0 <= j <= 10 && i == 2 * j
      invariant fila.Valid() && fresh(fila.Repr - old(fila.Repr))
      invariant fila.Contents() == Fill([], 10, Offered(draws[..j], caddr))
      invariant |fila.Contents()| == j
    {
      DriverQueue(draws, caddr, j);
      var accepted := fila.InsereSemBusca(j + 1, draws[j], caddr);
      i, j := i + 2, j + 1;
    }
    assert draws[..10] == draws;
  }

  lemma MoveHead<T>(taken: seq<T>, waiting: seq<T>)
    requires waiting != []
    ensures (taken + [waiting[0]]) + waiting[1..] == taken + waiting
  {
  }

  /** The driver's second loop: ten removals, none of which meets an empty queue. */
  method Esvazia(fila: Fila<int>) returns (removed: seq<Item<int>>)
    requires fila.Valid() && |fila.Contents()| == 10
    modifies fila.Repr
    ensures removed == old(fila.Contents())
  {
    ghost var full := fila.Contents();
    removed := [];
    var i := 0;
    while i < 20
      invariant 0 <= |removed| <= 10 && i == 2 * |removed|
      invariant fila.Valid() && fila.Repr == old(fila.Repr)
      invariant removed + fila.Contents() == full
    {
      ghost var waiting := fila.Contents();
      var item := fila.RemoveItem();
      MoveHead(removed, waiting);
      removed := removed + [item.value];
      i := i + 2;
    }
    assert removed + [] == removed;
  }

  /** The whole driver prints the drawn stamps in time order, each exactly once. */
  method PreencheEEsvazia(draws: seq<int>, caddr: int) returns (removed: seq<Item<int>>)
    requires |draws| == 10
    ensures Sorted(removed)
    ensures multiset(removed) == multiset(Offered(draws, caddr))
    ensures removed == Fill([], 10, Offered(draws, caddr))
  {
    var fila := new Fila<int>.Init(10);
    Preenche(fila, draws, caddr);
    removed := Esvazia(fila);
    FillThenDrain(10, Offered(draws, caddr), 10);
  }
}
