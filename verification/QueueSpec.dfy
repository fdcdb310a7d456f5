/** What the bounded, time-ordered waiting queue computes, on sequences. The queue of the
    UDP server, of the RPC server and of the standalone program share the sorted
    insertion; they differ in the saved address (the type parameter) and in whether a PID
    may appear twice. */
module QueueSpec {
  datatype Item<A> = Item(pid: int, tempo: int, addr: A)

  predicate HasPid<A>(q: seq<Item<A>>, pid: int) {
    exists i :: 0 <= i < |q| && q[i].pid == pid
  }

  predicate Sorted<A>(q: seq<Item<A>>) {
    forall i, j :: 0 <= i < j < |q| ==> q[i].tempo <= q[j].tempo
  }

  predicate DistinctPids<A>(q: seq<Item<A>>) {
    forall i, j :: 0 <= i < j < |q| ==> q[i].pid != q[j].pid
  }

  /** How many leading items of `q` the pointer walk passes. */
  function Walk<A>(q: seq<Item<A>>, tempo: int): (k: nat)
    ensures k <= |q|
  {
    if q == [] || q[0].tempo >= tempo then 0 else 1 + Walk(q[1..], tempo)
  }

  /** Where a new item goes. The head test is strict the other way round from the walk:
      an equal head stays in front, an equal tail item is overtaken. */
  function Position<A>(q: seq<Item<A>>, tempo: int): (k: nat)
    ensures k <= |q|
  {
    if q == [] || q[0].tempo > tempo then 0 else 1 + Walk(q[1..], tempo)
  }

  function InsertAt<A>(q: seq<Item<A>>, k: nat, item: Item<A>): (r: seq<Item<A>>)
    requires k <= |q|
    ensures |r| == |q| + 1
  {
    q[..k] + [item] + q[k..]
  }

  function Insert<A>(q: seq<Item<A>>, item: Item<A>): seq<Item<A>> {
    InsertAt(q, Position(q, item.tempo), item)
  }

  predicate Accepts<A>(q: seq<Item<A>>, n: int, pid: int) {
    |q| < n && !HasPid(q, pid)
  }

  /** The servers' `insere`: a full queue or a PID already waiting leaves it unchanged. */
  function Insere<A>(q: seq<Item<A>>, n: int, item: Item<A>): seq<Item<A>> {
    if Accepts(q, n, item.pid) then Insert(q, item) else q
  }

  /** The declarative reading of the place of a new item in a sorted queue. */
  ghost predicate RightPlace<A>(q: seq<Item<A>>, tempo: int, k: nat) {
    && k <= |q|
    && (k == 0 <==> q == [] || tempo < q[0].tempo)
    && (forall i :: 1 <= i < k ==> q[i].tempo < tempo)
    && (k > 0 ==> forall i :: k <= i < |q| ==> tempo <= q[i].tempo)
  }

  lemma {:induction false} WalkStops<A>(q: seq<Item<A>>, tempo: int)
    ensures forall i :: 0 <= i < Walk(q, tempo) ==> q[i].tempo < tempo
    ensures Walk(q, tempo) < |q| ==> q[Walk(q, tempo)].tempo >= tempo
  {
    if q != [] && q[0].tempo < tempo {
      WalkStops(q[1..], tempo);
    }
  }

  lemma {:induction false} WalkIs<A>(q: seq<Item<A>>, k: nat, tempo: int)
    requires k <= |q| && (forall i :: 0 <= i < k ==> q[i].tempo < tempo)
    requires k < |q| ==> q[k].tempo >= tempo
    ensures Walk(q, tempo) == k
  {
    if k > 0 {
      WalkIs(q[1..], k - 1, tempo);
    }
  }

  /** The node where the pointer walk stops is the insertion point. */
  lemma PositionFromWalk<A>(q: seq<Item<A>>, k: nat, tempo: int)
    requires 1 <= k <= |q| && q[0].tempo <= tempo
    requires forall i :: 1 <= i < k ==> q[i].tempo < tempo
    requires k < |q| ==> q[k].tempo >= tempo
    ensures Position(q, tempo) == k
  {
    WalkIs(q[1..], k - 1, tempo);
  }

  /** On a sorted queue the insertion point is the right place, and no other is. */
  lemma PositionIsTheRightPlace<A>(q: seq<Item<A>>, tempo: int, k: nat)
    requires Sorted(q)
    ensures RightPlace(q, tempo, k) <==> k == Position(q, tempo)
  {
    var p := Position(q, tempo);
    if q != [] && q[0].tempo <= tempo {
      WalkStops(q[1..], tempo);
      assert forall i :: 1 <= i < p ==> q[i] == q[1..][i - 1];
      if p < |q| {
        assert q[p] == q[1..][p - 1];
      }
    }
    assert RightPlace(q, tempo, p);
    if 0 < k < p {
      assert q[k].tempo < tempo;
    } else if 0 < p < k <= |q| {
      assert q[p].tempo >= tempo;
    }
  }

  lemma InsertKeepsOrder<A>(q: seq<Item<A>>, item: Item<A>)
    requires Sorted(q)
    ensures Sorted(Insert(q, item))
  {
    var k := Position(q, item.tempo);
    PositionIsTheRightPlace(q, item.tempo, k);
    var r := Insert(q, item);
    forall i, j | 0 <= i < j < |r|
      ensures r[i].tempo <= r[j].tempo
    {
      var i', j' := if i < k then i else i - 1, if j < k then j else j - 1;
      assert i != k ==> r[i] == q[i'];
      assert j != k ==> r[j] == q[j'];
      assert i == 0 && k > 0 ==> q[0].tempo <= item.tempo;
    }
  }

  lemma InsertContents<A>(q: seq<Item<A>>, item: Item<A>)
    ensures multiset(Insert(q, item)) == multiset(q) + multiset{item}
  {
    var k := Position(q, item.tempo);
    assert q == q[..k] + q[k..];
  }

  lemma InsertKeepsPidsDistinct<A>(q: seq<Item<A>>, item: Item<A>)
    requires DistinctPids(q) && !HasPid(q, item.pid)
    ensures DistinctPids(Insert(q, item))
  {
    var k := Position(q, item.tempo);
    var r := Insert(q, item);
    forall i, j | 0 <= i < j < |r|
      ensures r[i].pid != r[j].pid
    {
      assert i != k ==> r[i] == q[if i < k then i else i - 1];
      assert j != k ==> r[j] == q[if j < k then j else j - 1];
    }
  }

  /** A later stamp never overtakes: every item with a smaller stamp keeps its index. */
  lemma LaterStampStaysBehind<A>(q: seq<Item<A>>, item: Item<A>, j: nat)
    requires Sorted(q) && j < |q| && q[j].tempo < item.tempo
    ensures j < Position(q, item.tempo)
  {
    PositionIsTheRightPlace(q, item.tempo, Position(q, item.tempo));
  }

  /** An earlier or equal stamp moves a waiting item back by at most one place. */
  lemma InsertMovesByOne<A>(q: seq<Item<A>>, item: Item<A>, j: nat)
    requires j < |q|
    ensures var k := Position(q, item.tempo);
            Insert(q, item)[if j < k then j else j + 1] == q[j]
  {
  }

  /** What every run of the servers' queue keeps. */
  predicate WellQueued<A>(q: seq<Item<A>>, n: int) {
    (|q| <= n || q == []) && Sorted(q) && DistinctPids(q)
  }

  lemma InsereKeepsWellQueued<A>(q: seq<Item<A>>, n: int, item: Item<A>)
    requires WellQueued(q, n)
    ensures WellQueued(Insere(q, n, item), n)
    ensures q != [] ==> WellQueued(q[1..], n)
  {
    if Accepts(q, n, item.pid) {
      InsertKeepsOrder(q, item);
      InsertKeepsPidsDistinct(q, item);
    }
  }

  /** `after` is `before` with the item, unchanged, in its right place. */
  ghost predicate QueuedInPlace<A>(before: seq<Item<A>>, after: seq<Item<A>>, item: Item<A>) {
    exists k: nat :: RightPlace(before, item.tempo, k) && after == before[..k] + [item] + before[k..]
  }

  /** What an `insere` promises about the queue before and after it. */
  ghost predicate QueuedOrRefused<A>(before: seq<Item<A>>, after: seq<Item<A>>, n: int, item: Item<A>) {
    if |before| < n && (forall x :: x in before ==> x.pid != item.pid) then
      QueuedInPlace(before, after, item)
    else
      after == before
  }

  lemma InsereQueuesInPlace<A>(q: seq<Item<A>>, n: int, item: Item<A>)
    requires Sorted(q)
    ensures QueuedOrRefused(q, Insere(q, n, item), n, item)
  {
    assert HasPid(q, item.pid) <==> exists x :: x in q && x.pid == item.pid by {
      if x :| x in q && x.pid == item.pid {
        var i :| 0 <= i < |q| && q[i] == x;
      }
    }
    PositionIsTheRightPlace(q, item.tempo, Position(q, item.tempo));
  }
}
