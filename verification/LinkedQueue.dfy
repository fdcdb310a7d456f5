/** The queue as the programs build it: singly linked nodes, relinked in place. */
module LinkedQueue {
  import opened Wrappers
  import opened QueueSpec

  class Node<A> {
    const item: Item<A>
    var next: Node?<A>

    constructor (item: Item<A>)
      ensures this.item == item && next == null
    {
      this.item := item;
      next := null;
    }
  }

  ghost function Successor<A>(spine: seq<Node<A>>, i: nat): Node?<A> {
    if i + 1 < |spine| then spine[i + 1] else null
  }

  ghost predicate Chained<A>(spine: seq<Node<A>>)
    reads set x | x in spine
  {
    && (forall i :: 0 <= i < |spine| ==> spine[i].next == Successor(spine, i))
    && (forall i, j :: 0 <= i < j < |spine| ==> spine[i] != spine[j])
  }

  ghost function Items<A>(spine: seq<Node<A>>): (q: seq<Item<A>>)
    ensures |q| == |spine|
    ensures forall i :: 0 <= i < |q| ==> q[i] == spine[i].item
  {
    seq(|spine|, i requires 0 <= i < |spine| => spine[i].item)
  }

  ghost function Splice<A>(was: seq<Node<A>>, k: nat, novo: Node<A>): (spine: seq<Node<A>>)
    requires k <= |was|
    ensures |spine| == |was| + 1 && spine[k] == novo
    ensures forall i :: 0 <= i < k ==> spine[i] == was[i]
    ensures forall i :: k < i < |spine| ==> spine[i] == was[i - 1]
  {
    was[..k] + [novo] + was[k..]
  }

  /** Linking a new node behind the first `k` nodes of a chain gives a chain. */
  lemma SpliceIsChained<A>(was: seq<Node<A>>, k: nat, novo: Node<A>)
    requires k <= |was| && novo !in was
    requires forall i, j :: 0 <= i < j < |was| ==> was[i] != was[j]
    requires forall i :: 0 <= i < |was| ==> was[i].next == if i + 1 == k then novo else Successor(was, i)
    requires novo.next == if k < |was| then was[k] else null
    ensures Chained(Splice(was, k, novo))
  {
    var spine := Splice(was, k, novo);
    forall i | 0 <= i < |spine|
      ensures spine[i].next == Successor(spine, i)
    {
      if i < k - 1 {
        assert was[i].next == Successor(was, i);
      } else if i > k {
        assert was[i - 1].next == Successor(was, i - 1);
      }
    }
  }

  lemma SpliceItems<A>(was: seq<Node<A>>, k: nat, novo: Node<A>)
    requires k <= |was|
    ensures Items(Splice(was, k, novo)) == InsertAt(Items(was), k, novo.item)
  {
  }

  lemma Relinked<A>(was: seq<Node<A>>, k: nat, novo: Node<A>) returns (spine: seq<Node<A>>)
    requires k <= |was| && novo !in was
    requires forall i, j :: 0 <= i < j < |was| ==> was[i] != was[j]
    requires forall i :: 0 <= i < |was| ==> was[i].next == if i + 1 == k then novo else Successor(was, i)
    requires novo.next == if k < |was| then was[k] else null
    ensures |spine| == |was| + 1 && spine[0] == if k == 0 then novo else was[0]
    ensures forall x :: x in spine ==> x in was || x == novo
    ensures Chained(spine) && Items(spine) == InsertAt(Items(was), k, novo.item)
  {
    SpliceIsChained(was, k, novo);
    SpliceItems(was, k, novo);
    spine := Splice(was, k, novo);
  }

  class Fila<A> {
    var tamanho: int
    const N: int
    var head: Node?<A>
    // The nodes reached from `head`, in order.
    ghost var spine: seq<Node<A>>

    ghost var Repr: set<object>

    /** The nodes form one chain without a cycle, and `tamanho` counts them. */
    ghost predicate Valid()
      reads this, Repr
      ensures Valid() ==> this in Repr
    {
      && this in Repr && (forall x :: x in spine ==> x in Repr)
      && tamanho == |spine|
      && head == (if spine == [] then null else spine[0])
      && Chained(spine)
    }

    ghost function Contents(): (q: seq<Item<A>>)
      reads this
    {
      Items(spine)
    }

    constructor Init(n: int)
      ensures Valid() && fresh(Repr)
      ensures N == n && Contents() == []
    {
      tamanho := 0;
      N := n;
      head := null;
      spine := [];
      Repr := {this};
    }

    method EstaNaFila(pid: int) returns (found: bool)
      requires Valid()
      ensures found == HasPid(Contents(), pid)
    {
      var aux := head;
      ghost var i := 0;
      while aux != null
        invariant 0 <= i <= |spine|
        invariant aux == if i < |spine| then spine[i] else null
        invariant forall k :: 0 <= k < i ==> Contents()[k].pid != pid
        decreases |spine| - i
      {
        if aux.item.pid == pid {
          assert Contents()[i].pid == pid;
          return true;
        }
        aux := aux.next;
        i := i + 1;
      }
      return false;
    }

    /** The pointer walk: the node that a new item with stamp `tempo` goes behind. */
    method Antecessor(tempo: int) returns (aux: Node<A>)
      requires Valid() && spine != [] && spine[0].item.tempo <= tempo
      ensures aux == spine[Position(Contents(), tempo) - 1]
    {
      ghost var q := Contents();
      ghost var k := 1;
      aux := head;
      while aux.next != null && aux.next.item.tempo < tempo
        invariant 1 <= k <= |spine| && aux == spine[k - 1]
        invariant forall i :: 1 <= i < k ==> q[i].tempo < tempo
        decreases |spine| - k
      {
        aux := aux.next;
        k := k + 1;
      }
      PositionFromWalk(q, k, tempo);
    }

    /** Links a new node in front of the chain. */
    method LigaNaFrente(item: Item<A>)
      requires Valid()
      modifies Repr
      ensures Valid() && fresh(Repr - old(Repr))
      ensures Contents() == InsertAt(old(Contents()), 0, item)
    {
      var novo := new Node(item);
      novo.next := head;
      head := novo;
      ghost var chain := Relinked(spine, 0, novo);
      tamanho, spine, Repr := tamanho + 1, chain, Repr + {novo};
    }

    /** Links a new node behind `aux`, the `k`-th node. */
    method LigaDepois(item: Item<A>, aux: Node<A>, ghost k: nat)
      requires Valid() && 1 <= k <= |spine| && aux == spine[k - 1]
      modifies Repr
      ensures Valid() && fresh(Repr - old(Repr))
      ensures Contents() == InsertAt(old(Contents()), k, item)
    {
      var novo := new Node(item);
      novo.next := aux.next;
      aux.next := novo;
      ghost var chain := Relinked(spine, k, novo);
      tamanho, spine, Repr := tamanho + 1, chain, Repr + {novo};
    }

    /** The three branches shared by every `insere`. */
    method Encadeia(item: Item<A>)
      requires Valid()
      modifies Repr
      ensures Valid() && fresh(Repr - old(Repr))
      ensures Contents() == Insert(old(Contents()), item)
    {
      if tamanho == 0 {
        LigaNaFrente(item);
      } else if head.item.tempo > item.tempo {
        LigaNaFrente(item);
      } else {
        var aux := Antecessor(item.tempo);
        LigaDepois(item, aux, Position(Contents(), item.tempo));
      }
    }

    /** The servers' `insere`, which refuses a PID that is already waiting. */
    method Insere(pid: int, tempo: int, addr: A) returns (accepted: bool)
      requires Valid()
      modifies Repr
      ensures Valid() && fresh(Repr - old(Repr))
      ensures accepted == Accepts(old(Contents()), N, pid)
      ensures Contents() == QueueSpec.Insere(old(Contents()), N, Item(pid, tempo, addr))
    {
      if tamanho < N {
        var found := EstaNaFila(pid);
        if !found {
          Encadeia(Item(pid, tempo, addr));
          return true;
        }
      }
      return false;
    }

    /** The standalone program's `insere`, which lets a PID wait twice. */
    method InsereSemBusca(pid: int, tempo: int, addr: A) returns (accepted: bool)
      requires Valid()
      modifies Repr
      ensures Valid() && fresh(Repr - old(Repr))
      ensures accepted == (|old(Contents())| < N)
      ensures Contents() ==
              if accepted then Insert(old(Contents()), Item(pid, tempo, addr)) else old(Contents())
    {
      if tamanho < N {
        Encadeia(Item(pid, tempo, addr));
        return true;
      }
      return false;
    }

    method RemoveItem() returns (item: Option<Item<A>>)
      requires Valid()
      modifies this
      ensures Valid() && Repr == old(Repr)
      ensures item == if old(Contents()) == [] then None else Some(old(Contents())[0])
      ensures Contents() == if old(Contents()) == [] then [] else old(Contents())[1..]
    {
      if head == null {
        return None;
      }
      item := Some(head.item);
      head := head.next;
      tamanho := tamanho - 1;
      spine := spine[1..];
    }
  }
}
