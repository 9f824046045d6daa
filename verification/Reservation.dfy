/** The address reservation table of mm/paging_hashed/hls_mapping/resv_table.cpp: a ring of BRAM indices in flight. */
module Reservation {

  const RESV_SUCCESS: nat := 0
  const ADDR_EXIST: nat := 1
  const TABLE_FULL: nat := 2
  const ENTRIES: nat := 16

  datatype Entry = Entry(valid: bool, index: nat)
  datatype Maybe = Nothing | Just(value: nat)

  ghost predicate Distinct(q: seq<nat>)
  {
    forall i, j :: 0 <= i < j < |q| ==> q[i] != q[j]
  }

  /** A reservation on the queue the ring stands for. */
  function Reserve(q: seq<nat>, index: nat): (r: (seq<nat>, nat))
    ensures Distinct(q) ==> Distinct(r.0)
    ensures |q| < ENTRIES ==> |r.0| < ENTRIES
    ensures r.1 == RESV_SUCCESS <==> r.0 == q + [index]
    ensures r.1 != RESV_SUCCESS ==> r.0 == q
    ensures r.1 == RESV_SUCCESS <==> |q| != ENTRIES - 1 && index !in q
    ensures r.1 in {RESV_SUCCESS, ADDR_EXIST, TABLE_FULL} && (r.1 == TABLE_FULL <==> |q| == ENTRIES - 1)
  {
    if |q| == ENTRIES - 1 then (q, TABLE_FULL)
    else if index in q then (q, ADDR_EXIST)
    else (q + [index], RESV_SUCCESS)
  }

  /** (i + 1) & TBL_INDEX_MASK */
  function Next(i: nat): nat { if i + 1 == ENTRIES then 0 else i + 1 }

  /** How far position j is behind the head, going round. */
  function Behind(head: nat, j: nat): int
    requires head < ENTRIES && j < ENTRIES
  {
    if j >= head then j - head else j + ENTRIES - head
  }

  class Ring {
    var table: array<Entry>
    var head: nat
    var rear: nat
    ghost var queue: seq<nat>

    ghost predicate Shape()
      reads this, table
    {
      table.Length == ENTRIES && head < ENTRIES && rear < ENTRIES
    }

    /** The ring holds the queue from the head on; everything else is cleared. */
    ghost predicate Valid()
      reads this, table
    {
      && Shape()
      && |queue| < ENTRIES && Distinct(queue) && Behind(head, rear) == |queue|
      && (forall j :: 0 <= j < ENTRIES ==>
            if Behind(head, j) < |queue| then table[j] == Entry(true, queue[Behind(head, j)]) else !table[j].valid)
    }

    constructor ()
      ensures Valid() && fresh(table) && queue == []
    {
      table := new Entry[ENTRIES](_ => Entry(false, 0));
      head, rear, queue := 0, 0, [];
    }

    /**
     The first half of a call: an index-less POP releases the oldest entry. The code does not ask
     whether there is one; popped when empty, the ring reads as full.
     */
    method Pop()
      requires Valid()
      modifies this, table
      ensures Shape() && table == old(table)
      ensures old(queue) != [] ==> Valid() && queue == old(queue)[1..]
      ensures old(queue) == [] ==> Next(rear) == head && queue == [] && !Valid()
    {
      table[head] := Entry(false, 0);
      head := Next(head);
      if queue != [] { queue := queue[1..]; }
    }

    /** The second half: reserves an index unless the table is full or already holds it. */
    method Resv(index: nat) returns (res: nat)
      requires Shape() && (Valid() || Next(rear) == head)
      modifies this, table
      ensures Shape() && table == old(table)
      ensures old(Valid()) ==> Valid() && queue == Reserve(old(queue), index).0 && res == Reserve(old(queue), index).1
      ensures old(Next(rear) == head) ==> res == TABLE_FULL && head == old(head) && rear == old(rear) && queue == old(queue)
    {
      if Next(rear) == head { return TABLE_FULL; }
      var isExist, i := false, 0;
      while i < ENTRIES
        invariant 0 <= i <= ENTRIES && !isExist
        invariant forall j :: 0 <= j < i ==> !(table[j].valid && table[j].index == index)
      {
        if table[i].valid && table[i].index == index {
          isExist := true;
          break;
        }
        i := i + 1;
      }
      if isExist {
        assert queue[Behind(head, i)] == index;
        return ADDR_EXIST;
      }
      NotInQueue(index);
      table[rear] := Entry(true, index);
      rear := Next(rear);
      queue := queue + [index];
      res := RESV_SUCCESS;
    }

    /** An index no entry holds is not in the queue. */
    lemma NotInQueue(index: nat)
      requires Valid() && forall j :: 0 <= j < ENTRIES ==> !(table[j].valid && table[j].index == index)
      ensures index !in queue
    {
      forall k | 0 <= k < |queue| ensures queue[k] != index {
        var j := if head + k < ENTRIES then head + k else head + k - ENTRIES;
        assert Behind(head, j) == k;
        assert table[j] == Entry(true, queue[k]);
      }
    }
  }

  /**
   Every call: the pop, if one is waiting, then the reservation, if one is asked for. The table stays a
   queue unless it is popped when empty, and then it refuses every reservation as full.
   */
  method Call(r: Ring, pop: bool, resv: Maybe) returns (res: Maybe)
    requires r.Valid()
    modifies r, r.table
    ensures r.table == old(r.table) && (resv.Nothing? <==> res.Nothing?)
    ensures r.Valid() <==> !(pop && old(r.queue) == [])
    ensures pop && old(r.queue) == [] ==> Next(r.rear) == r.head && (resv.Just? ==> res == Just(TABLE_FULL))
    ensures !(pop && old(r.queue) == []) ==>
      var q := if pop then old(r.queue)[1..] else old(r.queue);
      match resv
      case Nothing => r.queue == q
      case Just(index) => r.queue == Reserve(q, index).0 && res == Just(Reserve(q, index).1)
  {
    if pop { r.Pop(); }
    res := Nothing;
    if resv.Just? {
      var code := r.Resv(resv.value);
      res := Just(code);
    }
  }
}
