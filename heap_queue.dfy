/**
  * The priority queue of the shortest-path search: (cost, label) entries,
  * ordered first by cost and then by node label as strings compare, from which
  * the least entry is taken first. Only what is in the queue matters to the
  * search, so the queue is a multiset of entries; the array layout of a
  * binary heap is not modelled.
  */
module HeapQueue {
  import opened Graphs

  /** A queued node with the cost it was queued at. */
  datatype Entry = Entry(cost: nat, node: Node)

  /** String order: a prefix comes first, otherwise the first differing character decides. */
  predicate StrLe(a: string, b: string) {
    if a == [] then true
    else if b == [] then false
    else if a[0] != b[0] then a[0] < b[0]
    else StrLe(a[1..], b[1..])
  }

  lemma {:induction false} StrLeReflexive(a: string)
    ensures StrLe(a, a)
  {
    if a != [] {
      StrLeReflexive(a[1..]);
    }
  }

  lemma {:induction false} StrLeTotal(a: string, b: string)
    ensures StrLe(a, b) || StrLe(b, a)
  {
    if a != [] && b != [] && a[0] == b[0] {
      StrLeTotal(a[1..], b[1..]);
    }
  }

  lemma {:induction false} StrLeTransitive(a: string, b: string, c: string)
    requires StrLe(a, b) && StrLe(b, c)
    ensures StrLe(a, c)
  {
    if a != [] && b != [] && c != [] && a[0] == b[0] && b[0] == c[0] {
      StrLeTransitive(a[1..], b[1..], c[1..]);
    }
  }

  lemma {:induction false} StrLeAntisymmetric(a: string, b: string)
    requires StrLe(a, b) && StrLe(b, a)
    ensures a == b
  {
    if a != [] && b != [] {
      StrLeAntisymmetric(a[1..], b[1..]);
      assert a == [a[0]] + a[1..] && b == [b[0]] + b[1..];
    }
  }

  /** Entries compare as (cost, node label) pairs. */
  predicate EntryLe(x: Entry, y: Entry) {
    x.cost < y.cost || (x.cost == y.cost && StrLe(x.node, y.node))
  }

  lemma EntryLeReflexive(e: Entry)
    ensures EntryLe(e, e)
  {
    StrLeReflexive(e.node);
  }

  /**
    * The (cost, label) order of queue entries is a total order: any two
    * entries compare, and two entries that compare both ways are the same
    * entry.
    */
  lemma EntryTotalOrder(x: Entry, y: Entry, z: Entry)
    ensures EntryLe(x, y) || EntryLe(y, x)
    ensures EntryLe(x, y) && EntryLe(y, x) ==> x == y
    ensures EntryLe(x, y) && EntryLe(y, z) ==> EntryLe(x, z)
  {
    StrLeTotal(x.node, y.node);
    if EntryLe(x, y) && EntryLe(y, x) {
      StrLeAntisymmetric(x.node, y.node);
    }
    if EntryLe(x, y) && EntryLe(y, z) && x.cost == y.cost == z.cost {
      StrLeTransitive(x.node, y.node, z.node);
    }
  }

  /** e is a least entry of the queue. */
  predicate IsMinOf(e: Entry, heap: multiset<Entry>) {
    e in heap && forall x :: x in heap ==> EntryLe(e, x)
  }

  /** The (cost, label) order is total, so there is only one least entry. */
  lemma MinUnique(e1: Entry, e2: Entry, heap: multiset<Entry>)
    requires IsMinOf(e1, heap) && IsMinOf(e2, heap)
    ensures e1 == e2
  {
    assert EntryLe(e1, e2) && EntryLe(e2, e1);
    StrLeAntisymmetric(e1.node, e2.node);
  }

  /** Removes and returns the least entry of a nonempty queue. */
  method HeapPop(heap: multiset<Entry>) returns (e: Entry, rest: multiset<Entry>)
    requires heap != multiset{}
    ensures IsMinOf(e, heap)
    ensures rest == heap - multiset{e}
  {
    e :| e in heap;
    var todo := heap;
    while todo != multiset{}
      invariant todo <= heap && e in heap
      invariant forall x :: x in heap && x !in todo ==> EntryLe(e, x)
      decreases |todo|
    {
      var x :| x in todo;
      StrLeTotal(x.node, e.node);
      if !EntryLe(e, x) {
        forall y | y in heap && y !in todo
          ensures EntryLe(x, y)
        {
          if x.cost == e.cost && e.cost == y.cost {
            StrLeTransitive(x.node, e.node, y.node);
          }
        }
        StrLeReflexive(x.node);
        e := x;
      }
      todo := todo - multiset{x};
    }
    rest := heap - multiset{e};
  }
}
