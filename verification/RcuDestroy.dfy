/** ~rcu_list: the two freeing loops, run on a state that no guard is using. */
module RcuDestroy {
  import opened ZombieStack
  import opened RcuLinks
  import opened RcuMachine

  /** Without guards every node is in the list or held by one stack entry. */
  lemma IdleNodes(s: Rcu)
    requires RcuMachine.Inv(s) && s.z.guards == map[]
    ensures s.z.m.reaper == 0 && s.z.m.lo == s.z.m.hi
    ensures forall d :: d in s.l.nodes ==> s.l.nodes[d].status.Linked? || s.l.nodes[d].status.Retired?
    ensures forall e :: e in s.z.m.entries ==> s.z.m.entries[e].owner == 0 && s.z.m.entries[e].stamp != -1
  {
    if s.z.m.reaper != 0 { ReaperIs(s.z); }
    forall d | d in s.l.nodes ensures s.l.nodes[d].status.Linked? || s.l.nodes[d].status.Retired? {
      assert NodeOk(s.l.nodes[d], d, s.op);
    }
    forall e | e in s.z.m.entries ensures s.z.m.entries[e].owner == 0 && s.z.m.entries[e].stamp != -1 {
      assert EntryOk(s.z.m.entries[e], e, s.z.guards);
    }
  }

  lemma AtNull(l: Links, i: nat)
    requires ListOk(l) && i <= |l.list| && At(l.list, i) == 0
    ensures i == |l.list|
  {
    assert forall j :: 0 <= j < |l.list| ==> IsLinked(l, l.list[j]);
  }

  /** The loop stands at position i: its node is live, not yet freed, and leads on. */
  lemma ListAt(l: Links, i: nat)
    requires ListOk(l) && i < |l.list|
    ensures l.list[i] in l.nodes && l.list[i] != 0 && l.nodes[l.list[i]].next == At(l.list, i + 1)
    ensures l.list[i] !in l.list[..i] && l.list[..i + 1] == l.list[..i] + [l.list[i]]
  {
    assert IsLinked(l, l.list[i]) && ForwardAt(l, i);
    forall j | 0 <= j < i ensures l.list[j] != l.list[i] {
      assert l.nodes[l.list[j]].rank < l.nodes[l.list[i]].rank;
    }
  }

  /** What is still allocated, and what has been freed, in order. Freeing what is not
      allocated is bad. */
  datatype Heap = Heap(nodes: map<Ptr, Node>, entries: map<Ptr, Entry>, freedNodes: seq<Ptr>, freedEntries: seq<Ptr>, bad: bool)
  {
    function FreeNode(d: Ptr): Heap {
      if d in nodes then this.(nodes := nodes - {d}, freedNodes := freedNodes + [d]) else this.(bad := true)
    }

    function FreeEntry(e: Ptr): Heap {
      if e in entries then this.(entries := entries - {e}, freedEntries := freedEntries + [e]) else this.(bad := true)
    }
  }

  ghost predicate Distinct(q: seq<Ptr>) {
    forall i, j :: 0 <= i < j < |q| ==> q[i] != q[j]
  }

  /** Everything that s had allocated is allocated still or was freed once. */
  ghost predicate Accounted(s: Rcu, h: Heap) {
    && Distinct(h.freedNodes) && Distinct(h.freedEntries)
    && (forall d :: d in h.freedNodes <==> d in s.l.nodes && d !in h.nodes)
    && (forall e :: e in h.freedEntries <==> e in s.z.m.entries && e !in h.entries)
    && (forall d :: d in h.nodes ==> d in s.l.nodes) && forall e :: e in h.entries ==> e in s.z.m.entries
  }

  lemma FreeNodeAccounted(s: Rcu, h: Heap, d: Ptr)
    requires Accounted(s, h) && d in h.nodes
    ensures Accounted(s, h.FreeNode(d))
  {
    assert d !in h.freedNodes;
  }

  lemma FreeEntryAccounted(s: Rcu, h: Heap, e: Ptr)
    requires Accounted(s, h) && e in h.entries
    ensures Accounted(s, h.FreeEntry(e))
  {
    assert e !in h.freedEntries;
  }

  /** First loop: free the linked nodes from the head on. */
  method FreeList(s: Rcu, start: Heap) returns (h: Heap)
    requires ListOk(s.l) && start.nodes == s.l.nodes && Accounted(s, start) && !start.bad
    ensures !h.bad && Accounted(s, h) && h.entries == start.entries && h.freedEntries == start.freedEntries
    ensures forall d :: d in h.nodes <==> d in s.l.nodes && d !in s.l.list
    ensures h.freedNodes == start.freedNodes + s.l.list
  {
    var l := s.l;
    h := start;
    var n := l.head;
    ghost var i := 0;
    while n != 0
      invariant !h.bad && Accounted(s, h) && h.entries == start.entries && h.freedEntries == start.freedEntries
      invariant 0 <= i <= |l.list| && n == At(l.list, i) && h.freedNodes == start.freedNodes + l.list[..i]
      invariant forall d :: d in h.nodes <==> d in l.nodes && d !in l.list[..i]
      invariant forall d :: d in h.nodes ==> h.nodes[d] == l.nodes[d]
      decreases |l.list| - i
    {
      ListAt(l, i);
      if n !in h.nodes {
        h := h.(bad := true);
        return;
      }
      var current := n;
      n := h.nodes[n].next;
      FreeNodeAccounted(s, h, current);
      h := h.FreeNode(current);
      i := i + 1;
    }
    AtNull(l, i);
    assert l.list[..i] == l.list;
  }

  /** Positions of the log below k. */
  ghost predicate Below(s: Rcu, k: int, e: Ptr) {
    e in s.z.m.entries && s.z.m.entries[e].stamp < k
  }

  ghost predicate HeldBelow(s: Rcu, k: int, d: Ptr) {
    d in s.l.nodes && s.l.nodes[d].status.Retired? && s.l.nodes[d].status.stamp < k
  }

  /** What is left when everything from position k of the log upwards is freed. */
  ghost predicate EntriesLeft(s: Rcu, k: int, entries: map<Ptr, Entry>) {
    && (forall e :: e in entries <==> Below(s, k, e))
    && (forall e :: e in entries ==> entries[e] == s.z.m.entries[e])
  }

  ghost predicate NodesLeft(s: Rcu, k: int, nodes: map<Ptr, Node>) {
    forall d :: d in nodes <==> HeldBelow(s, k, d)
  }

  /** Second loop: free the zombie entries from the top down, with their nodes. */
  method FreeZombies(s: Rcu, start: Heap) returns (h: Heap)
    requires RcuMachine.Inv(s) && s.z.guards == map[] && !start.bad && Accounted(s, start) && start.entries == s.z.m.entries
    requires forall d :: d in start.nodes <==> d in s.l.nodes && d !in s.l.list
    ensures !h.bad && h.nodes == map[] && h.entries == map[] && Accounted(s, h)
  {
    IdleNodes(s);
    var m := s.z.m;
    h := start;
    var zn := m.head;
    ghost var k := |m.log|;
    StartZombies(s, start.nodes);
    while zn != 0
      invariant !h.bad && Accounted(s, h) && m.floor <= k <= |m.log| && zn == (if k == m.floor then 0 else m.log[k - 1])
      invariant EntriesLeft(s, k, h.entries) && NodesLeft(s, k, h.nodes)
      decreases k
    {
      Peel(s, k, h.nodes, h.entries);
      if zn !in h.entries {
        h := h.(bad := true);
        return;
      }
      if h.entries[zn].owner != 0 { break; }
      var current := zn;
      zn := h.entries[zn].next;
      var dead := h.entries[current].node;
      if dead != 0 {
        FreeNodeAccounted(s, h, dead);
        h := h.FreeNode(dead);
      }
      FreeEntryAccounted(s, h, current);
      h := h.FreeEntry(current);
      k := k - 1;
    }
    NothingBelow(s);
  }

  lemma StartZombies(s: Rcu, rest: map<Ptr, Node>)
    requires RcuMachine.Inv(s) && s.z.guards == map[]
    requires forall d :: d in rest <==> d in s.l.nodes && d !in s.l.list
    ensures s.z.m.head == if |s.z.m.log| == s.z.m.floor then 0 else s.z.m.log[|s.z.m.log| - 1]
    ensures s.z.m.floor <= |s.z.m.log| && EntriesLeft(s, |s.z.m.log|, s.z.m.entries) && NodesLeft(s, |s.z.m.log|, rest)
  {
    IdleNodes(s);
    RetiredAreBelow(s);
    forall d ensures d in rest <==> HeldBelow(s, |s.z.m.log|, d) {
      if d in s.l.list {
        var i :| 0 <= i < |s.l.list| && s.l.list[i] == d;
        assert IsLinked(s.l, s.l.list[i]);
      }
      assert IsLinked(s.l, d) ==> d in s.l.list;
    }
  }

  /** The entry at position i, its successor, and the one node it holds. */
  lemma ZombieAt(s: Rcu, i: int)
    requires RcuMachine.Inv(s) && s.z.guards == map[] && s.z.m.floor <= i < |s.z.m.log|
    ensures var m := s.z.m; var e := m.log[i];
            && e != 0 && e in m.entries && m.entries[e].stamp == i && m.entries[e].owner == 0
            && (forall x :: x in m.entries && m.entries[x].stamp == i ==> x == e)
            && m.entries[e].next == (if i == m.floor then 0 else m.log[i - 1])
            && (forall d :: d in s.l.nodes && s.l.nodes[d].status == Retired(i) <==> d == m.entries[e].node && d != 0)
  {
    IdleNodes(s);
    var m := s.z.m;
    assert m.Live(i) && m.log[i] in m.entries && NextOk(m, i);
    assert HeldNode(s.z, i) == m.entries[m.log[i]].node;
  }

  /** Freeing the top entry and its node moves the boundary down by one. */
  lemma Peel(s: Rcu, k: int, nodes: map<Ptr, Node>, entries: map<Ptr, Entry>)
    requires RcuMachine.Inv(s) && s.z.guards == map[] && s.z.m.floor < k <= |s.z.m.log|
    requires EntriesLeft(s, k, entries) && NodesLeft(s, k, nodes)
    ensures var e := s.z.m.log[k - 1];
            && e != 0 && e in entries && entries[e].owner == 0
            && entries[e].next == (if k - 1 == s.z.m.floor then 0 else s.z.m.log[k - 2])
            && EntriesLeft(s, k - 1, entries - {e})
            && (entries[e].node == 0 ==> NodesLeft(s, k - 1, nodes))
            && (entries[e].node != 0 ==> entries[e].node in nodes && NodesLeft(s, k - 1, nodes - {entries[e].node}))
  {
    ZombieAt(s, k - 1);
    var e := s.z.m.log[k - 1];
    PeelEntries(s, k, e, entries);
    var dead := s.z.m.entries[e].node;
    PeelNodes(s, k, nodes, dead, if dead == 0 then nodes else nodes - {dead});
  }

  lemma PeelEntries(s: Rcu, k: int, e: Ptr, entries: map<Ptr, Entry>)
    requires EntriesLeft(s, k, entries) && e in s.z.m.entries && s.z.m.entries[e].stamp == k - 1
    requires forall x :: x in s.z.m.entries && s.z.m.entries[x].stamp == k - 1 ==> x == e
    ensures e in entries && entries[e] == s.z.m.entries[e] && EntriesLeft(s, k - 1, entries - {e})
  {
    assert Below(s, k, e);
    forall x ensures x in entries - {e} <==> Below(s, k - 1, x) {
      assert x in entries <==> Below(s, k, x);
    }
  }

  lemma PeelNodes(s: Rcu, k: int, nodes: map<Ptr, Node>, dead: Ptr, left: map<Ptr, Node>)
    requires NodesLeft(s, k, nodes) && left == if dead == 0 then nodes else nodes - {dead}
    requires forall d :: d in s.l.nodes && s.l.nodes[d].status == Retired(k - 1) <==> d == dead && d != 0
    ensures NodesLeft(s, k - 1, left) && (dead != 0 ==> dead in nodes)
  {
    assert dead in nodes <==> HeldBelow(s, k, dead);
    forall d ensures d in left <==> HeldBelow(s, k - 1, d) {
      assert d in nodes <==> HeldBelow(s, k, d);
    }
  }

  lemma NothingBelow(s: Rcu)
    requires RcuMachine.Inv(s) && s.z.guards == map[]
    ensures forall entries :: EntriesLeft(s, s.z.m.floor, entries) ==> entries == map[]
    ensures forall nodes :: NodesLeft(s, s.z.m.floor, nodes) ==> nodes == map[]
  {
    IdleNodes(s);
    forall d | d in s.l.nodes && s.l.nodes[d].status.Retired? ensures s.l.nodes[d].status.stamp >= s.z.m.floor {
      assert HeldNode(s.z, s.l.nodes[d].status.stamp) == d;
    }
  }

  /** Destroying a list that no guard uses frees every node and every entry exactly
      once, and nothing else. */
  method Destroy(s: Rcu) returns (h: Heap)
    requires RcuMachine.Inv(s) && s.z.guards == map[]
    ensures !h.bad && h.nodes == map[] && h.entries == map[]
    ensures Distinct(h.freedNodes) && forall d :: d in h.freedNodes <==> d in s.l.nodes
    ensures Distinct(h.freedEntries) && forall e :: e in h.freedEntries <==> e in s.z.m.entries
  {
    h := FreeList(s, Heap(s.l.nodes, s.z.m.entries, [], [], false));
    h := FreeZombies(s, h);
  }
}
