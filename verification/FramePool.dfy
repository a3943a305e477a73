/**
 The pool behind a pipe: two singly linked lists over the same nodes, a stack of free ones and a
 queue of stored ones. When nothing is free the eldest stored node is stolen.
 */
module FramePool {

  /** What the two lists hold, front first. */
  datatype Pool<T> = Pool(free: seq<T>, work: seq<T>)
  {
    /** The node `allocate_data` hands out, if there is one. */
    predicate CanAllocate()
    {
      free != [] || work != []
    }

    /** Whether that node is taken from the stored ones. */
    predicate Steals()
    {
      free == []
    }

    function Allocate(): (T, Pool<T>)
      requires CanAllocate()
    {
      if free != [] then (free[0], Pool(free[1..], work)) else (work[0], Pool(free, work[1..]))
    }

    function Store(x: T): Pool<T>
    {
      Pool(free, work + [x])
    }

    function Load(): (T, Pool<T>)
      requires work != []
    {
      (work[0], Pool(free, work[1..]))
    }

    function Release(x: T): Pool<T>
    {
      Pool([x] + free, work)
    }
  }

  class PoolData {
    var next: PoolData?

    constructor ()
      ensures next == null
    {
      next := null;
    }
  }

  /** Node `i` of a list, or null past its end. */
  ghost function NodeAt(nodes: seq<PoolData>, i: nat): PoolData?
  {
    if i < |nodes| then nodes[i] else null
  }

  /** `head` starts the null-terminated list of exactly these nodes. */
  ghost predicate IsList(head: PoolData?, nodes: seq<PoolData>)
    reads nodes
  {
    && head == NodeAt(nodes, 0)
    && forall i {:trigger nodes[i].next} :: 0 <= i < |nodes| ==> nodes[i].next == NodeAt(nodes, i + 1)
  }

  lemma TailIsList(head: PoolData?, nodes: seq<PoolData>)
    requires nodes != [] && IsList(head, nodes)
    ensures IsList(nodes[0].next, nodes[1..])
  {
    var tail := nodes[1..];
    assert nodes[0].next == NodeAt(nodes, 1) == NodeAt(tail, 0);
    forall i | 0 <= i < |tail|
      ensures tail[i].next == NodeAt(tail, i + 1)
    {
      assert tail[i] == nodes[i + 1] && NodeAt(tail, i + 1) == NodeAt(nodes, i + 2);
    }
  }

  lemma ConsIsList(x: PoolData, head: PoolData?, nodes: seq<PoolData>)
    requires IsList(head, nodes) && x.next == head
    ensures IsList(x, [x] + nodes)
  {
    var longer := [x] + nodes;
    forall i | 0 <= i < |longer|
      ensures longer[i].next == NodeAt(longer, i + 1)
    {
      assert NodeAt(longer, i + 1) == NodeAt(nodes, i);
      assert i > 0 ==> longer[i] == nodes[i - 1];
    }
  }

  lemma SnocIsList(head: PoolData?, nodes: seq<PoolData>, x: PoolData)
    requires x.next == null && head == NodeAt(nodes + [x], 0)
    requires forall i :: 0 <= i < |nodes| ==> nodes[i].next == NodeAt(nodes + [x], i + 1)
    ensures IsList(head, nodes + [x])
  {
  }

  ghost predicate Distinct<T>(s: seq<T>)
  {
    forall i, j :: 0 <= i < j < |s| ==> s[i] != s[j]
  }

  /** Every node is in exactly one place: free, stored, or held by a thread. */
  ghost predicate Partition<T>(p: Pool<T>, held: set<T>, all: set<T>)
  {
    && Distinct(p.free) && Distinct(p.work)
    && (forall x :: x in p.free ==> x in all && x !in p.work && x !in held)
    && (forall x :: x in p.work ==> x in all && x !in held)
    && held <= all && (forall x :: x in all ==> x in p.free || x in p.work || x in held)
  }

  lemma HeadLeaves<T>(s: seq<T>)
    requires s != [] && Distinct(s)
    ensures Distinct(s[1..]) && s[0] !in s[1..]
    ensures forall x :: x in s ==> x in s[1..] || x == s[0]
  {
    forall x | x in s
      ensures x in s[1..] || x == s[0]
    {
      var i :| 0 <= i < |s| && s[i] == x;
      assert i > 0 ==> s[1..][i - 1] == x;
    }
  }

  lemma HeadRemoved<T>(stored: seq<T>, removed: seq<T>, work: seq<T>)
    requires stored == removed + work && work != []
    ensures stored == removed + [work[0]] + work[1..]
  {
  }

  lemma LastStored<T>(stored: seq<T>, removed: seq<T>, work: seq<T>, x: T)
    requires stored == removed + work
    ensures stored + [x] == removed + (work + [x])
  {
  }

  lemma AllocateKeeps<T>(p: Pool<T>, held: set<T>, all: set<T>)
    requires Partition(p, held, all) && p.CanAllocate()
    ensures var (x, p') := p.Allocate(); x !in held && x in all && Partition(p', held + {x}, all)
  {
    HeadLeaves(if p.free != [] then p.free else p.work);
  }

  lemma LoadKeeps<T>(p: Pool<T>, held: set<T>, all: set<T>)
    requires Partition(p, held, all) && p.work != []
    ensures var (x, p') := p.Load(); x !in held && x in all && Partition(p', held + {x}, all)
  {
    HeadLeaves(p.work);
  }

  lemma StoreKeeps<T>(p: Pool<T>, held: set<T>, all: set<T>, x: T)
    requires Partition(p, held, all) && x in held
    ensures Partition(p.Store(x), held - {x}, all)
  {
    assert forall y :: y in p.work + [x] <==> y in p.work || y == x;
  }

  lemma ReleaseKeeps<T>(p: Pool<T>, held: set<T>, all: set<T>, x: T)
    requires Partition(p, held, all) && x in held
    ensures Partition(p.Release(x), held - {x}, all)
  {
    assert forall y :: y in [x] + p.free <==> y in p.free || y == x;
  }

  class Pipeline {
    var bufpool: PoolData?
    var datahead: PoolData?
    var datatail: PoolData?
    var datacount: int
    var bufcount: int

    /** The two lists, the nodes lent out to threads, and all nodes of the pool. */
    ghost var lists: Pool<PoolData>
    ghost var held: set<PoolData>
    ghost var all: set<PoolData>
    /** The nodes ever stored, and the nodes ever taken back out, each in order. */
    ghost var stored: seq<PoolData>
    ghost var removed: seq<PoolData>

    constructor ()
      ensures Valid() && all == {} && lists == Pool([], [])
    {
      bufpool, datahead, datatail, datacount, bufcount := null, null, null, 0, 0;
      lists, held, all, stored, removed := Pool([], []), {}, {}, [], [];
    }

    /** `datatail` is the last stored node, and the counters are the lengths. */
    ghost predicate Shape()
      reads this, lists.free, lists.work
    {
      && IsList(bufpool, lists.free) && IsList(datahead, lists.work)
      && datatail == (if lists.work == [] then null else lists.work[|lists.work| - 1])
      && bufcount == |lists.free| && datacount == |lists.work|
    }

    /**
     Both lists are acyclic and disjoint, every node is in exactly one place, and what was stored
     has left in order or is queued.
     */
    ghost predicate Valid()
      reads this, lists.free, lists.work
    {
      Shape() && Partition(lists, held, all) && stored == removed + lists.work
    }

    /** One more free node, in front. */
    method AddNode()
      requires IsList(bufpool, lists.free) && Partition(lists, held, all)
      modifies this`bufpool, this`lists, this`all
      ensures IsList(bufpool, lists.free) && Partition(lists, held, all)
      ensures fresh(all - old(all)) && |lists.free| == |old(lists.free)| + 1 && lists.work == old(lists.work)
    {
      var data := new PoolData();
      data.next := bufpool;
      ConsIsList(data, bufpool, lists.free);
      bufpool := data;
      ReleaseKeeps(lists, held + {data}, all + {data}, data);
      lists := lists.Release(data);
      all := all + {data};
    }

    /** Fills a new pool; the nodes end up free, the last one allocated in front. */
    method DatapoolInit(n: int, datasize: int) returns (pool: PoolData?)
      requires Valid() && lists == Pool([], []) && held == {}
      modifies this
      ensures Valid() && held == {} && fresh(all)
      ensures n <= 0 || datasize <= 0 ==> pool == null && all == {} && lists == old(lists)
      ensures n > 0 && datasize > 0 ==> pool == bufpool && |lists.free| == n && lists.work == []
    {
      if n <= 0 || datasize <= 0 {
        return null;
      }
      bufpool := null;
      bufcount := 0;
      lists := Pool([], []);
      var i := 0;
      while i < n
        invariant 0 <= i <= n && bufcount == 0
        invariant |lists.free| == i && lists.work == [] && held == {} && fresh(all)
        invariant IsList(bufpool, lists.free) && Partition(lists, held, all)
        invariant datahead == datatail == null && datacount == 0
        invariant stored == removed
      {
        AddNode();
        i := i + 1;
      }
      datacount := 0;
      bufcount := n;
      pool := bufpool;
    }

    method LoadDataUnlocked() returns (data: PoolData?)
      requires Valid()
      modifies this, all
      ensures Valid() && all == old(all)
      ensures data == null <==> old(lists.work) == []
      ensures data == null ==> lists == old(lists) && held == old(held) && removed == old(removed)
      ensures data != null ==> (data, lists) == old(lists.Load()) && data.next == null
      ensures data != null ==> held == old(held) + {data} && data !in old(held) && removed == old(removed) + [data]
      ensures stored == old(stored)
    {
      if datatail == null {
        return null;
      }
      LoadKeeps(lists, held, all);
      HeadLeaves(lists.work);
      TailIsList(datahead, lists.work);
      data := datahead;
      datahead := data.next;
      data.next := null;
      if datahead == null {
        datatail := null;
      }
      datacount := datacount - 1;
      HeadRemoved(stored, removed, lists.work);
      removed := removed + [data];
      lists := lists.Load().1;
      held := held + {data};
      assert IsList(bufpool, lists.free) && IsList(datahead, lists.work);
    }

    /** Null stands for the FATAL exit, reached exactly when every node is lent out. */
    method AllocateData() returns (data: PoolData?)
      requires Valid()
      modifies this, all
      ensures Valid() && all == old(all) && stored == old(stored)
      ensures data == null <==> old(held) == all
      ensures data == null ==> lists == old(lists) && held == old(held) && removed == old(removed)
      ensures data != null ==> old(lists.CanAllocate()) && (data, lists) == old(lists.Allocate()) && data.next == null
      ensures data != null ==> if old(lists.free) != []
        then [data] + lists.free == old(lists.free) && lists.work == old(lists.work)
        else [data] + lists.work == old(lists.work) && lists.free == []
      ensures data != null ==> held == old(held) + {data} && data !in old(held)
      ensures data != null ==> removed == if old(lists.Steals()) then old(removed) + [data] else old(removed)
    {
      if bufpool == null {
        data := LoadDataUnlocked();
      } else {
        AllocateKeeps(lists, held, all);
        HeadLeaves(lists.free);
        TailIsList(bufpool, lists.free);
        data := bufpool;
        bufpool := data.next;
        data.next := null;
        bufcount := bufcount - 1;
        lists := lists.Allocate().1;
        held := held + {data};
      }
    }

    method StoreData(data: PoolData)
      requires Valid() && data in held
      modifies this, all
      ensures Valid() && all == old(all)
      ensures lists == old(lists.Store(data)) && held == old(held) - {data}
      ensures stored == old(stored) + [data] && removed == old(removed)
    {
      StoreKeeps(lists, held, all, data);
      LastStored(stored, removed, lists.work, data);
      ghost var work := lists.work;
      data.next := null;
      if datatail == null {
        datahead, datatail := data, data;
      } else {
        datatail.next := data;
        datatail := data;
      }
      assert forall i :: 0 <= i < |work| ==> work[i].next == NodeAt(work + [data], i + 1);
      datacount := datacount + 1;
      assert IsList(bufpool, lists.free);
      SnocIsList(datahead, lists.work, data);
      lists := lists.Store(data);
      held := held - {data};
      stored := stored + [data];
    }

    method ReleaseData(data: PoolData)
      requires Valid() && data in held
      modifies this, all
      ensures Valid() && all == old(all)
      ensures lists.free == [data] + old(lists.free) && lists.work == old(lists.work)
      ensures lists == old(lists.Release(data)) && held == old(held) - {data}
      ensures stored == old(stored) && removed == old(removed)
    {
      ReleaseKeeps(lists, held, all, data);
      data.next := bufpool;
      ConsIsList(data, bufpool, lists.free);
      bufpool := data;
      bufcount := bufcount + 1;
      lists := lists.Release(data);
      held := held - {data};
    }
  }
}
