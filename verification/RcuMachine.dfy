/** rcu_list shared by any number of readers and writers, as a transition system:
    the guards of ZombieStack and the linked structure of RcuLinks, with the
    handles through which threads traverse and change the list. */
module RcuMachine {
  import opened ZombieStack
  import opened RcuLinks

  /** One pass over the list: when it began, where it stands, what it saw. */
  datatype Walk = NoWalk | Walk(begun: nat, cur: Ptr, visited: seq<Ptr>)

  /** A handle: every node address obtained through it, and its current pass. */
  datatype View = View(writer: bool, held: set<Ptr>, walk: Walk)

  datatype Rcu = Rcu(z: Stack, l: Links, mutex: Ptr, op: Op, views: map<Ptr, View>, bad: bool)

  const Start: Rcu := Rcu(Empty, Links(map[], 0, 0, [], 0, 0, 0), 0, Idle, map[], false)

  // ---------------------------------------------------------------- steps

  datatype Action =
    | Open(g: Ptr, a: Ptr, writer: bool)       // first access through a handle
    | Step(g: Ptr, weak: bool)                 // locking, pushing a zombie, unlocking
    | Acquire(g: Ptr)                          // m_write_mutex.lock()
    | Begin(g: Ptr)                            // begin()
    | Next(g: Ptr)                             // ++ on the iterator of the current pass
    | Peek(g: Ptr, p: Ptr)                     // ++ on any other iterator, or erase's result
    | StartPush(g: Ptr, n: Ptr, front: bool)   // allocate the new node
    | StartErase(g: Ptr, c: Ptr)               // erase's load of next
    | Mutate(g: Ptr)                           // the next step of push or erase
    | AllocZombie(g: Ptr, a: Ptr)              // allocate the zombie entry
    | Close(g: Ptr)                            // the handle is destroyed

  /** The handle may be used: its guard is on the stack, a writer has the mutex
      and is not in the middle of an operation. */
  predicate Usable(s: Rcu, g: Ptr) {
    && g in s.z.guards && g in s.views && s.z.guards[g].pc.Holding?
    && (s.views[g].writer ==> s.mutex == g && s.op.Idle?)
  }

  predicate Enabled(s: Rcu, a: Action) {
    match a
    case Open(g, e, _) => g != 0 && g !in s.z.guards && e != 0 && e !in s.z.m.entries
    case Step(g, _) => g in s.z.guards && g in s.views && !s.z.guards[g].pc.Holding?
    case Acquire(g) => g in s.z.guards && g in s.views && s.views[g].writer && s.z.guards[g].pc.Holding? && s.mutex == 0
    case Begin(g) => Usable(s, g)
    case Next(g) => Usable(s, g) && s.views[g].walk.Walk? && s.views[g].walk.cur != 0
    case Peek(g, p) => Usable(s, g) && p in s.views[g].held
    case StartPush(g, n, _) => Usable(s, g) && s.views[g].writer && n != 0 && n !in s.l.nodes
    case StartErase(g, c) => Usable(s, g) && s.views[g].writer && c in s.views[g].held
    case Mutate(g) => g == s.mutex != 0 && !s.op.Idle? && !s.op.ErAlloc? && !s.op.ErPush?
    case AllocZombie(g, e) => g == s.mutex != 0 && s.op.ErAlloc? && g in s.z.guards && e != 0 && e !in s.z.m.entries
    case Close(g) => Usable(s, g)
  }

  function Hold(v: View, p: Ptr): View {
    if p == 0 then v else v.(held := v.held + {p})
  }

  /** The pass moves to p, or ends there when p is null. */
  function Visit(v: View, begun: nat, visited: seq<Ptr>, p: Ptr): View {
    Hold(v, p).(walk := Walk(begun, p, if p == 0 then visited else visited + [p]))
  }

  function RetireNode(l: Links, c: Ptr, stamp: nat): Links {
    if c in l.nodes then l.(nodes := l.nodes[c := l.nodes[c].(status := Retired(stamp))]) else l
  }

  function Do(s: Rcu, a: Action): Rcu
    requires Enabled(s, a)
  {
    match a
    case Open(g, e, writer) =>
      s.(z := ZombieStack.Open(s.z, g, e), views := s.views[g := View(writer, {}, NoWalk)])
    case Step(g, weak) =>
      var t := s.(z := Advance(s.z, g, weak));
      (match s.z.guards[g].pc
       case ReapNode(_, dead) =>
         if dead in s.l.nodes then t.(l := s.l.(nodes := s.l.nodes - {dead})) else t.(bad := true)
       case PushCas(_, _) =>
         if g in t.z.guards && t.z.guards[g].pc.Holding? && s.op.ErPush? then
           t.(l := RetireNode(s.l, s.op.c, |s.z.m.log|), op := Idle)
         else t
       case Clear(_) => t.(views := s.views - {g})
       case _ => t)
    case Acquire(g) => s.(mutex := g, op := Idle)
    case Begin(g) => s.(views := s.views[g := Visit(s.views[g], s.l.now, [], s.l.head)])
    case Next(g) =>
      var w := s.views[g].walk;
      if w.cur !in s.l.nodes then s.(bad := true)
      else s.(views := s.views[g := Visit(s.views[g], w.begun, w.visited, s.l.nodes[w.cur].next)])
    case Peek(g, p) =>
      if p !in s.l.nodes then s.(bad := true)
      else s.(views := s.views[g := Hold(s.views[g], s.l.nodes[p].next)])
    case StartPush(g, n, front) =>
      s.(l := s.l.(nodes := s.l.nodes[n := Node(0, 0, false, Private, 0, 0, 0)]), op := if front then PfLoad(n) else PbLoad(n))
    case StartErase(g, c) =>
      if c !in s.l.nodes then s.(bad := true)
      else s.(op := ErMark(c, s.l.nodes[c].next), views := s.views[g := Hold(s.views[g], s.l.nodes[c].next)])
    case Mutate(_) =>
      var (l, op, dead) := Write(s.l, s.op);
      s.(l := l, op := op, bad := s.bad || dead)
    case AllocZombie(g, e) =>
      s.(z := Retire(s.z, g, e, s.op.c), op := ErPush(s.op.c))
    case Close(g) =>
      s.(z := Goto(s.z, s.z.m, g, UnlockLoad), mutex := if s.views[g].writer then 0 else s.mutex,
         views := s.views[g := s.views[g].(held := {}, walk := NoWalk)])
  }

  // ------------------------------------------------------------ invariant

  /** A node that the holder of the guard at position k may be standing on. */
  ghost predicate Visible(l: Links, k: int, p: Ptr) {
    p in l.nodes && !l.nodes[p].status.Private? && (l.nodes[p].status.Retired? ==> l.nodes[p].status.stamp > k)
  }

  /** What a pass that began at `begun` and now stands on `cur` has covered. */
  ghost predicate WalkOk(l: Links, held: set<Ptr>, w: Walk)
    requires w.Walk?
  {
    && w.begun <= l.now
    && (forall i {:trigger w.visited[i]} :: 0 <= i < |w.visited| ==> w.visited[i] in held && w.visited[i] in l.nodes)
    && (forall i {:trigger w.visited[i]} :: 0 <= i < |w.visited| ==>
          (l.nodes[w.visited[i]].status.Unlinked() ==> l.nodes[w.visited[i]].gone >= w.begun))
    && (forall i, j {:trigger w.visited[i], w.visited[j]} :: 0 <= i < j < |w.visited| ==>
          l.nodes[w.visited[i]].rank < l.nodes[w.visited[j]].rank)
    && (w.cur != 0 ==> |w.visited| > 0 && w.visited[|w.visited| - 1] == w.cur)
    && (forall x {:trigger IsLinked(l, x)} ::
          IsLinked(l, x) && l.nodes[x].born < w.begun && (w.cur == 0 || l.nodes[x].rank <= l.nodes[w.cur].rank) ==>
            x in w.visited)
  }

  ghost predicate ViewOk(l: Links, k: int, v: View) {
    && (forall p :: p in v.held ==> Visible(l, k, p))
    && (v.walk.Walk? ==> WalkOk(l, v.held, v.walk))
  }

  /** A handle that is not in use holds nothing. */
  ghost predicate HandleOk(s: Rcu, g: Ptr)
    requires g in s.views && g in s.z.guards
  {
    var pc := s.z.guards[g].pc;
    if pc.Holding? || pc.Pushing() then
      ViewOk(s.l, Position(s.z, g), s.views[g]) && (pc.Pushing() ==> g == s.mutex && s.op.ErPush?)
    else s.views[g].held == {} && s.views[g].walk.NoWalk?
  }

  ghost predicate HandlesOk(s: Rcu) {
    s.views.Keys == s.z.guards.Keys && forall g :: g in s.views ==> HandleOk(s, g)
  }

  ghost predicate MutexOk(s: Rcu) {
    if s.mutex == 0 then s.op.Idle?
    else
      && s.mutex in s.z.guards && s.mutex in s.views && s.views[s.mutex].writer
      && var guard := s.z.guards[s.mutex];
         && (guard.pc.Holding? || guard.pc.Pushing())
         && (s.op.ErMark? ==> s.op.c in s.views[s.mutex].held)
         && (s.op.ErPush? ==> guard.pc.Pushing() && guard.pc.z in s.z.m.entries && s.z.m.entries[guard.pc.z].node == s.op.c)
  }

  /** The stack holds exactly the retired nodes that are still live. */
  ghost predicate ZombiesOk(s: Rcu) {
    && (forall i {:trigger HeldNode(s.z, i)} :: HeldNode(s.z, i) != 0 ==>
          HeldNode(s.z, i) in s.l.nodes && s.l.nodes[HeldNode(s.z, i)].status == Retired(i))
    && (forall d :: d in s.l.nodes && s.l.nodes[d].status.Retired? ==> HeldNode(s.z, s.l.nodes[d].status.stamp) == d)
  }

  ghost predicate Inv(s: Rcu) {
    && !s.bad && ZombieStack.Inv(s.z)
    && LinksInv(s.l, s.op, s.z.m.floor)
    && ZombiesOk(s) && MutexOk(s) && HandlesOk(s)
  }

  lemma RetiredAreBelow(s: Rcu)
    requires ZombiesOk(s) && 0 !in s.l.nodes && Shape(s.z.m)
    ensures RetiredBelow(s.l, |s.z.m.log|)
  {
    forall d | d in s.l.nodes && s.l.nodes[d].status.Retired? ensures s.l.nodes[d].status.stamp < |s.z.m.log| {
      assert HeldNode(s.z, s.l.nodes[d].status.stamp) == d;
    }
  }

  // --------------------------------------------------------- preservation

  lemma EvolvesWalk(l: Links, t: Links, m: int, v: View)
    requires Evolves(l, t, m) && RanksOk(l) && v.walk.Walk? && WalkOk(l, v.held, v.walk)
    requires forall p :: p in v.held ==> p in l.nodes && !l.nodes[p].status.Private?
    ensures WalkOk(t, v.held, v.walk)
  {
    var w := v.walk;
    forall i {:trigger w.visited[i]} | 0 <= i < |w.visited|
      ensures w.visited[i] in t.nodes && t.nodes[w.visited[i]].rank == l.nodes[w.visited[i]].rank
      ensures t.nodes[w.visited[i]].status.Unlinked() ==> t.nodes[w.visited[i]].gone >= w.begun
    {
      assert w.visited[i] in l.nodes;
    }
    forall x {:trigger IsLinked(t, x)} |
      IsLinked(t, x) && t.nodes[x].born < w.begun && (w.cur == 0 || t.nodes[x].rank <= t.nodes[w.cur].rank)
      ensures x in w.visited
    {
      assert IsLinked(l, x);
    }
  }

  lemma EvolvesView(l: Links, t: Links, m: int, k: int, v: View)
    requires Evolves(l, t, m) && RanksOk(l) && ViewOk(l, k, v) && k < m
    ensures ViewOk(t, k, v)
  {
    if v.walk.Walk? { EvolvesWalk(l, t, m, v); }
  }

  /** A change of the structure leaves every handle valid. */
  lemma EvolvesHandles(s: Rcu, l: Links, op: Op)
    requires Inv(s) && Evolves(s.l, l, |s.z.m.log|) && !s.op.ErPush?
    ensures HandlesOk(s.(l := l, op := op))
  {
    var t := s.(l := l, op := op);
    forall g | g in t.views ensures HandleOk(t, g) {
      assert HandleOk(s, g);
      if s.z.guards[g].pc.Holding? {
        PositionLive(s.z, g);
        EvolvesView(s.l, l, |s.z.m.log|, Position(s.z, g), s.views[g]);
      }
    }
  }

  lemma SameZombies(s: Rcu, l: Links, op: Op)
    requires ZombiesOk(s) && SameRetired(s.l, l)
    ensures ZombiesOk(s.(l := l, op := op))
  {
    var t := s.(l := l, op := op);
    forall i {:trigger HeldNode(t.z, i)} | HeldNode(t.z, i) != 0
      ensures HeldNode(t.z, i) in l.nodes && l.nodes[HeldNode(t.z, i)].status == Retired(i)
    {
      assert HeldNode(s.z, i) in s.l.nodes;
    }
  }

  /** Assembles the invariant after a step that changes only the structure. */
  lemma StructureInv(s: Rcu, l: Links, op: Op)
    requires Inv(s) && s.mutex != 0 && LinksInv(l, op, s.z.m.floor)
    requires Evolves(s.l, l, |s.z.m.log|) && SameRetired(s.l, l) && !s.op.ErPush? && !op.ErPush? && !op.ErMark?
    ensures Inv(s.(l := l, op := op))
  {
    EvolvesHandles(s, l, op);
    SameZombies(s, l, op);
  }

  lemma WriteNeverPushes(l: Links, op: Op)
    requires Mutating(op)
    ensures !Write(l, op).1.ErPush? && (Write(l, op).1.ErMark? ==> Write(l, op).2)
  {
  }

  lemma MutateInv(s: Rcu, g: Ptr)
    requires Inv(s) && Enabled(s, Mutate(g))
    ensures Inv(Do(s, Mutate(g)))
  {
    RetiredAreBelow(s);
    WriteNeverPushes(s.l, s.op);
    WriteInv(s.l, s.op, s.z.m.floor, |s.z.m.log|);
    var (l, op, dead) := Write(s.l, s.op);
    StructureInv(s, l, op);
  }

  function AddNode(l: Links, n: Ptr): Links {
    l.(nodes := l.nodes[n := Node(0, 0, false, Private, 0, 0, 0)])
  }

  lemma AddedList(l: Links, n: Ptr, op: Op)
    requires ListOk(l) && BacksOk(l, Idle) && n != 0 && n !in l.nodes && (op == PbLoad(n) || op == PfLoad(n))
    ensures ListOk(AddNode(l, n)) && BacksOk(AddNode(l, n), op)
    ensures forall x :: IsLinked(AddNode(l, n), x) <==> IsLinked(l, x)
  {
    var t := AddNode(l, n);
    assert AllLinked(t) by {
      forall i {:trigger t.list[i]} | 0 <= i < |t.list| ensures IsLinked(t, t.list[i]) { assert IsLinked(l, l.list[i]); }
    }
    assert Forward(t) by {
      forall i {:trigger ForwardAt(t, i)} | 0 <= i < |t.list| ensures ForwardAt(t, i) {
        assert IsLinked(l, l.list[i]) && ForwardAt(l, i);
      }
    }
    forall x | IsLinked(t, x) ensures x in t.list { assert IsLinked(l, x); }
    forall i {:trigger BackAt(t, op, i)} | 0 <= i < |t.list| ensures BackAt(t, op, i) {
      assert IsLinked(l, l.list[i]) && BackAt(l, Idle, i);
    }
  }

  lemma AddedNodes(l: Links, n: Ptr, op: Op)
    requires 0 !in l.nodes && RanksOk(l) && NodesOk(l, Idle)
    requires n != 0 && n !in l.nodes && (op == PbLoad(n) || op == PfLoad(n))
    ensures RanksOk(AddNode(l, n)) && NodesOk(AddNode(l, n), op)
  {
    var t := AddNode(l, n);
    forall d | d in t.nodes ensures DatesOk(t, d) && NodeOk(t.nodes[d], d, op) {
      assert d in l.nodes ==> DatesOk(l, d) && NodeOk(l.nodes[d], d, Idle);
    }
  }

  lemma AddedFrozens(l: Links, n: Ptr, floor: int)
    requires FrozensOk(l, floor) && n !in l.nodes
    ensures FrozensOk(AddNode(l, n), floor)
  {
    var t := AddNode(l, n);
    assert forall x {:trigger IsLinked(t, x)} :: IsLinked(t, x) <==> IsLinked(l, x);
    forall d | d in t.nodes && Frozen(t.nodes[d], floor) ensures FrozenOk(t, d) { assert FrozenOk(l, d); }
  }

  /** A new node is invisible. */
  lemma AddedOk(l: Links, n: Ptr, op: Op, floor: int, m: int)
    requires LinksInv(l, Idle, floor) && n != 0 && n !in l.nodes && (op == PbLoad(n) || op == PfLoad(n))
    ensures LinksInv(AddNode(l, n), op, floor) && Evolves(l, AddNode(l, n), m) && SameRetired(l, AddNode(l, n))
  {
    AddedList(l, n, op);
    AddedNodes(l, n, op);
    AddedFrozens(l, n, floor);
    AddedEvolves(l, n, m);
  }

  lemma AddedEvolves(l: Links, n: Ptr, m: int)
    requires n !in l.nodes
    ensures Evolves(l, AddNode(l, n), m) && SameRetired(l, AddNode(l, n))
  {
  }

  lemma StartPushInv(s: Rcu, g: Ptr, n: Ptr, front: bool)
    requires Inv(s) && Enabled(s, StartPush(g, n, front))
    ensures Inv(Do(s, StartPush(g, n, front)))
  {
    var op := if front then PfLoad(n) else PbLoad(n);
    AddedOk(s.l, n, op, s.z.m.floor, |s.z.m.log|);
    StructureInv(s, AddNode(s.l, n), op);
  }

  // Traversal.

  /** Where the next field of a linked node leads. */
  lemma LinkedNext(l: Links, p: Ptr)
    requires ListOk(l) && IsLinked(l, p)
    ensures var e := l.nodes[p].next;
            if e == 0 then forall x {:trigger IsLinked(l, x)} :: IsLinked(l, x) ==> l.nodes[x].rank <= l.nodes[p].rank
            else IsLinked(l, e) && l.nodes[p].rank < l.nodes[e].rank && NoneBetween(l, l.nodes[p].rank, l.nodes[e].rank)
  {
    var q := l.list;
    var i :| 0 <= i < |q| && q[i] == p;
    assert ForwardAt(l, i);
    forall x {:trigger IsLinked(l, x)} | IsLinked(l, x)
      ensures l.nodes[x].rank <= l.nodes[p].rank || (i + 1 < |q| && l.nodes[q[i + 1]].rank <= l.nodes[x].rank)
    {
      var k :| 0 <= k < |q| && q[k] == x;
      if k < i { assert l.nodes[q[k]].rank < l.nodes[q[i]].rank; }
      if k > i + 1 { assert l.nodes[q[i + 1]].rank < l.nodes[q[k]].rank; }
    }
    if i + 1 < |q| { assert IsLinked(l, q[i + 1]) && l.nodes[q[i]].rank < l.nodes[q[i + 1]].rank; }
  }

  /** From a visible node the next field leads to a visible node or to the end. */
  lemma NextVisible(l: Links, floor: int, k: int, p: Ptr)
    requires ListOk(l) && FrozensOk(l, floor) && floor <= k && Visible(l, k, p)
    ensures l.nodes[p].next == 0 || Visible(l, k, l.nodes[p].next)
  {
    if IsLinked(l, p) { LinkedNext(l, p); } else { assert FrozenOk(l, p); }
  }

  lemma HeadVisible(l: Links, k: int)
    requires ListOk(l)
    ensures l.head == 0 || (Visible(l, k, l.head) && IsLinked(l, l.head))
    ensures forall x {:trigger IsLinked(l, x)} :: IsLinked(l, x) ==> l.head != 0 && l.nodes[l.head].rank <= l.nodes[x].rank
  {
    if l.list != [] { assert IsLinked(l, l.list[0]); }
    forall x {:trigger IsLinked(l, x)} | IsLinked(l, x)
      ensures l.head != 0 && l.nodes[l.head].rank <= l.nodes[x].rank
    {
      var k :| 0 <= k < |l.list| && l.list[k] == x;
      if k > 0 { assert l.nodes[l.list[0]].rank < l.nodes[l.list[k]].rank; }
    }
  }

  lemma BeginView(l: Links, k: int, v: View)
    requires ListOk(l) && RanksOk(l) && ViewOk(l, k, v)
    ensures ViewOk(l, k, Visit(v, l.now, [], l.head))
  {
    HeadVisible(l, k);
    var t := Visit(v, l.now, [], l.head);
    forall x {:trigger IsLinked(l, x)} |
      IsLinked(l, x) && (t.walk.cur == 0 || l.nodes[x].rank <= l.nodes[t.walk.cur].rank)
      ensures x in t.walk.visited
    {
      assert l.nodes[x].rank == l.nodes[l.head].rank;
      assert t.walk.visited == [l.head];
    }
  }

  lemma PeekView(l: Links, floor: int, k: int, v: View, p: Ptr)
    requires ListOk(l) && FrozensOk(l, floor) && floor <= k && ViewOk(l, k, v) && p in v.held
    ensures ViewOk(l, k, Hold(v, l.nodes[p].next))
  {
    NextVisible(l, floor, k, p);
  }

  /** Everything that stayed linked since the pass began, and is not behind the
      node reached now, has been visited. */
  lemma NextCovers(l: Links, floor: int, k: int, v: View, x: Ptr)
    requires ListOk(l) && RanksOk(l) && FrozensOk(l, floor) && floor <= k && ViewOk(l, k, v)
    requires v.walk.Walk? && v.walk.cur != 0 && v.walk.cur in v.held
    requires IsLinked(l, x) && l.nodes[x].born < v.walk.begun
    requires var e := l.nodes[v.walk.cur].next; e == 0 || (e in l.nodes && l.nodes[x].rank <= l.nodes[e].rank)
    ensures x in v.walk.visited || x == l.nodes[v.walk.cur].next
  {
    var c := v.walk.cur;
    if l.nodes[x].rank > l.nodes[c].rank {
      if IsLinked(l, c) { LinkedNext(l, c); } else { assert FrozenOk(l, c); }
      var n := |v.walk.visited|;
      assert v.walk.visited[n - 1] == c;
    }
  }

  lemma NextView(l: Links, floor: int, k: int, v: View)
    requires ListOk(l) && RanksOk(l) && FrozensOk(l, floor) && floor <= k && ViewOk(l, k, v)
    requires v.walk.Walk? && v.walk.cur != 0
    ensures v.walk.cur in v.held
    ensures ViewOk(l, k, Visit(v, v.walk.begun, v.walk.visited, l.nodes[v.walk.cur].next))
  {
    var w := v.walk;
    var n := |w.visited|;
    assert w.visited[n - 1] == w.cur;
    NextVisible(l, floor, k, w.cur);
    var e := l.nodes[w.cur].next;
    var t := Visit(v, w.begun, w.visited, e);
    forall x {:trigger IsLinked(l, x)} |
      IsLinked(l, x) && l.nodes[x].born < w.begun && (e == 0 || l.nodes[x].rank <= l.nodes[e].rank)
      ensures x in t.walk.visited
    {
      NextCovers(l, floor, k, v, x);
      assert e != 0 ==> t.walk.visited[n] == e;
    }
    if e != 0 { NextAdvances(l, floor, k, v); }
  }

  /** The node reached lies behind the current one and was linked during the pass. */
  lemma NextAdvances(l: Links, floor: int, k: int, v: View)
    requires ListOk(l) && FrozensOk(l, floor) && floor <= k && ViewOk(l, k, v)
    requires v.walk.Walk? && v.walk.cur != 0 && v.walk.cur in v.held && l.nodes[v.walk.cur].next != 0
    ensures var e := l.nodes[v.walk.cur].next;
            && e in l.nodes && l.nodes[v.walk.cur].rank < l.nodes[e].rank
            && (l.nodes[e].status.Unlinked() ==> l.nodes[e].gone >= v.walk.begun)
            && forall i {:trigger v.walk.visited[i]} :: 0 <= i < |v.walk.visited| ==>
                 l.nodes[v.walk.visited[i]].rank < l.nodes[e].rank
  {
    var c := v.walk.cur;
    assert v.walk.visited[|v.walk.visited| - 1] == c;
    if IsLinked(l, c) { LinkedNext(l, c); } else { assert FrozenOk(l, c); }
  }

  // Steps of a handle.

  lemma ViewHandles(s: Rcu, g: Ptr, v: View)
    requires HandlesOk(s) && Usable(s, g) && ViewOk(s.l, Position(s.z, g), v)
    ensures HandlesOk(s.(views := s.views[g := v]))
  {
    var t := s.(views := s.views[g := v]);
    forall h | h in t.views ensures HandleOk(t, h) {
      if h != g { assert HandleOk(s, h); }
    }
  }

  lemma ViewZombies(s: Rcu, g: Ptr, v: View)
    requires ZombiesOk(s)
    ensures ZombiesOk(s.(views := s.views[g := v]))
  {
  }

  lemma ViewMutex(s: Rcu, g: Ptr, v: View)
    requires MutexOk(s) && Usable(s, g) && v.writer == s.views[g].writer
    ensures MutexOk(s.(views := s.views[g := v]))
  {
  }

  /** Assembles the invariant after a step that changes only g's view. */
  lemma ViewInv(s: Rcu, g: Ptr, v: View)
    requires Inv(s) && Usable(s, g) && v.writer == s.views[g].writer && ViewOk(s.l, Position(s.z, g), v)
    ensures Inv(s.(views := s.views[g := v]))
  {
    ViewHandles(s, g, v);
    ViewZombies(s, g, v);
    ViewMutex(s, g, v);
  }

  /** What a usable handle knows. */
  lemma UsableView(s: Rcu, g: Ptr)
    requires Inv(s) && Usable(s, g)
    ensures s.z.m.floor <= Position(s.z, g) && ViewOk(s.l, Position(s.z, g), s.views[g])
  {
    PositionLive(s.z, g);
    assert HandleOk(s, g);
  }

  lemma TraverseInv(s: Rcu, a: Action)
    requires Inv(s) && Enabled(s, a) && (a.Begin? || a.Next? || a.Peek?)
    ensures Inv(Do(s, a))
  {
    UsableView(s, a.g);
    var k, v := Position(s.z, a.g), s.views[a.g];
    match a
    case Begin(g) =>
      BeginView(s.l, k, v);
      ViewInv(s, g, Visit(v, s.l.now, [], s.l.head));
    case Next(g) =>
      NextView(s.l, s.z.m.floor, k, v);
      ViewInv(s, g, Visit(v, v.walk.begun, v.walk.visited, s.l.nodes[v.walk.cur].next));
    case Peek(g, p) =>
      PeekView(s.l, s.z.m.floor, k, v, p);
      ViewInv(s, g, Hold(v, s.l.nodes[p].next));
  }

  /** Moving between the parts of an operation that leave the structure alone. */
  lemma EnterStructure(l: Links, from: Op, op: Op, floor: int)
    requires LinksInv(l, from, floor) && OpOk(l, op)
    requires (from.Idle? && op.ErMark?) || (from.ErAlloc? && op == ErPush(from.c))
    ensures LinksInv(l, op, floor)
  {
    EnterBacks(l, from, op);
    EnterNodes(l, from, op);
  }

  lemma EnterBacks(l: Links, from: Op, op: Op)
    requires ListOk(l) && BacksOk(l, from) && ((from.Idle? && op.ErMark?) || (from.ErAlloc? && op.ErPush?))
    ensures BacksOk(l, op)
  {
    forall i {:trigger BackAt(l, op, i)} | 0 <= i < |l.list| ensures BackAt(l, op, i) { assert BackAt(l, from, i); }
  }

  lemma EnterNodes(l: Links, from: Op, op: Op)
    requires NodesOk(l, from) && ((from.Idle? && op.ErMark?) || (from.ErAlloc? && op == ErPush(from.c)))
    ensures NodesOk(l, op)
  {
    forall d | d in l.nodes ensures NodeOk(l.nodes[d], d, op) { assert NodeOk(l.nodes[d], d, from); }
  }

  lemma StartEraseInv(s: Rcu, g: Ptr, c: Ptr)
    requires Inv(s) && Enabled(s, StartErase(g, c))
    ensures Inv(Do(s, StartErase(g, c)))
  {
    UsableView(s, g);
    PeekView(s.l, s.z.m.floor, Position(s.z, g), s.views[g], c);
    var v := Hold(s.views[g], s.l.nodes[c].next);
    ViewInv(s, g, v);
    var u, t := s.(views := s.views[g := v]), Do(s, StartErase(g, c));
    EnterStructure(s.l, Idle, t.op, s.z.m.floor);
    MarkInv(u, t);
  }

  /** Once the structure is ready for it, erase can be entered. */
  lemma MarkInv(u: Rcu, t: Rcu)
    requires Inv(u) && u.op.Idle? && u.mutex != 0 && t == u.(op := t.op) && t.op.ErMark? && t.op.c in u.views[u.mutex].held
    requires LinksInv(t.l, t.op, t.z.m.floor)
    ensures Inv(t)
  {
    forall h | h in t.views ensures HandleOk(t, h) { assert HandleOk(u, h); }
    SameHeld(u, t);
  }

  lemma AcquireInv(s: Rcu, g: Ptr)
    requires Inv(s) && Enabled(s, Acquire(g))
    ensures Inv(Do(s, Acquire(g)))
  {
    var t := Do(s, Acquire(g));
    forall h | h in s.views ensures HandleOk(t, h) { assert HandleOk(s, h); }
  }

  // Steps of a guard.

  lemma SameHeld(s: Rcu, t: Rcu)
    requires ZombiesOk(s) && t.l == s.l && forall i {:trigger HeldNode(t.z, i)} :: HeldNode(t.z, i) == HeldNode(s.z, i)
    ensures ZombiesOk(t)
  {
    forall i {:trigger HeldNode(t.z, i)} | HeldNode(t.z, i) != 0
      ensures HeldNode(t.z, i) in t.l.nodes && t.l.nodes[HeldNode(t.z, i)].status == Retired(i)
    {
      assert HeldNode(s.z, i) != 0;
    }
    forall d | d in t.l.nodes && t.l.nodes[d].status.Retired? ensures HeldNode(t.z, t.l.nodes[d].status.stamp) == d {
      assert HeldNode(s.z, s.l.nodes[d].status.stamp) == d;
    }
  }

  /** A handle whose guard did not move is untouched by another guard's step. */
  lemma HandleStays(s: Rcu, t: Rcu, h: Ptr)
    requires h in s.views && h in t.views && t.views[h] == s.views[h] && t.l == s.l
    requires h in s.z.guards && h in t.z.guards && t.z.guards[h] == s.z.guards[h]
    requires !s.z.guards[h].pc.Locking() ==> Position(t.z, h) == Position(s.z, h)
    requires s.z.guards[h].pc.Pushing() ==> h == t.mutex && t.op.ErPush?
    requires HandleOk(s, h)
    ensures HandleOk(t, h)
  {
  }

  lemma OpenHandle(s: Rcu, g: Ptr, e: Ptr, writer: bool, h: Ptr)
    requires Enabled(s, Action.Open(g, e, writer)) && Shape(s.z.m) && h in s.views && h in s.z.guards
    requires HandleOk(s, h) && GuardOk(s.z.m, h, s.z.guards[h])
    ensures HandleOk(Do(s, Action.Open(g, e, writer)), h)
  {
    HandleStays(s, Do(s, Action.Open(g, e, writer)), h);
  }

  lemma OpenMutex(s: Rcu, g: Ptr, e: Ptr, writer: bool)
    requires Enabled(s, Action.Open(g, e, writer)) && MutexOk(s)
    ensures MutexOk(Do(s, Action.Open(g, e, writer)))
  {
  }

  lemma OpenHandles(s: Rcu, g: Ptr, e: Ptr, writer: bool)
    requires Inv(s) && Enabled(s, Action.Open(g, e, writer))
    ensures HandlesOk(Do(s, Action.Open(g, e, writer))) && MutexOk(Do(s, Action.Open(g, e, writer)))
  {
    var t := Do(s, Action.Open(g, e, writer));
    OpenMutex(s, g, e, writer);
    forall h | h in t.views ensures HandleOk(t, h) {
      if h != g { OpenHandle(s, g, e, writer, h); }
    }
  }

  lemma OpenInv(s: Rcu, g: Ptr, e: Ptr, writer: bool)
    requires Inv(s) && Enabled(s, Action.Open(g, e, writer))
    ensures Inv(Do(s, Action.Open(g, e, writer)))
  {
    var t := Do(s, Action.Open(g, e, writer));
    ZombieStack.OpenInv(s.z, g, e);
    forall i {:trigger HeldNode(t.z, i)} ensures HeldNode(t.z, i) == HeldNode(s.z, i) { OpenHeld(s.z, g, e, i); }
    SameHeld(s, t);
    OpenHandles(s, g, e, writer);
  }

  lemma AllocZombieHandle(s: Rcu, g: Ptr, e: Ptr, h: Ptr)
    requires Enabled(s, AllocZombie(g, e)) && Shape(s.z.m) && h in s.views && h in s.z.guards && MutexOk(s)
    requires HandleOk(s, h) && GuardOk(s.z.m, h, s.z.guards[h]) && GuardOk(s.z.m, g, s.z.guards[g])
    requires s.z.guards[g].pc.Holding?
    ensures HandleOk(Do(s, AllocZombie(g, e)), h)
  {
    if h != g { HandleStays(s, Do(s, AllocZombie(g, e)), h); }
  }

  lemma AllocZombieMutex(s: Rcu, g: Ptr, e: Ptr)
    requires Enabled(s, AllocZombie(g, e)) && MutexOk(s)
    ensures MutexOk(Do(s, AllocZombie(g, e)))
  {
  }

  /** A writer that is not pushing a zombie entry holds its guard. */
  lemma WriterHolds(s: Rcu)
    requires HandlesOk(s) && MutexOk(s) && s.mutex != 0 && !s.op.ErPush?
    ensures s.z.guards[s.mutex].pc.Holding?
  {
    assert HandleOk(s, s.mutex);
  }

  lemma AllocZombieHandles(s: Rcu, g: Ptr, e: Ptr)
    requires Inv(s) && Enabled(s, AllocZombie(g, e))
    ensures HandlesOk(Do(s, AllocZombie(g, e))) && MutexOk(Do(s, AllocZombie(g, e)))
  {
    var t := Do(s, AllocZombie(g, e));
    WriterHolds(s);
    AllocZombieMutex(s, g, e);
    forall h | h in t.views ensures HandleOk(t, h) { AllocZombieHandle(s, g, e, h); }
  }

  lemma AllocZombieStack(s: Rcu, g: Ptr, e: Ptr)
    requires Inv(s) && Enabled(s, AllocZombie(g, e))
    ensures ZombieStack.Inv(Do(s, AllocZombie(g, e)).z) && ZombiesOk(Do(s, AllocZombie(g, e)))
  {
    var t := Do(s, AllocZombie(g, e));
    assert HandleOk(s, g);
    RetireInv(s.z, g, e, s.op.c);
    forall i {:trigger HeldNode(t.z, i)} ensures HeldNode(t.z, i) == HeldNode(s.z, i) {
      RetireHeld(s.z, g, e, s.op.c, i);
    }
    SameHeld(s, t);
  }

  lemma AllocZombieInv(s: Rcu, g: Ptr, e: Ptr)
    requires Inv(s) && Enabled(s, AllocZombie(g, e))
    ensures Inv(Do(s, AllocZombie(g, e)))
  {
    EnterStructure(s.l, s.op, ErPush(s.op.c), s.z.m.floor);
    AllocZombieStack(s, g, e);
    AllocZombieHandles(s, g, e);
  }

  lemma CloseHandles(s: Rcu, g: Ptr)
    requires Inv(s) && Enabled(s, Close(g))
    ensures HandlesOk(Do(s, Close(g))) && MutexOk(Do(s, Close(g)))
  {
    var t := Do(s, Close(g));
    forall h | h in t.views ensures HandleOk(t, h) {
      assert HandleOk(s, h);
      if h != g { HandleStays(s, t, h); }
    }
  }

  lemma CloseInv(s: Rcu, g: Ptr)
    requires Inv(s) && Enabled(s, Close(g))
    ensures Inv(Do(s, Close(g)))
  {
    assert GuardOk(s.z.m, g, s.z.guards[g]);
    GotoInv(s.z, g, UnlockLoad);
    CloseZombies(s, g);
    CloseHandles(s, g);
  }

  lemma CloseZombies(s: Rcu, g: Ptr)
    requires ZombieStack.Inv(s.z) && ZombiesOk(s) && Enabled(s, Close(g))
    ensures ZombiesOk(Do(s, Close(g)))
  {
    var t := Do(s, Close(g));
    forall i {:trigger HeldNode(t.z, i)} ensures HeldNode(t.z, i) == HeldNode(s.z, i) { UnlockHeld(s.z, g, i); }
    SameHeld(s, t);
  }

  lemma RaiseFloor(l: Links, op: Op, floor: int, higher: int)
    requires LinksInv(l, op, floor) && floor <= higher
    ensures LinksInv(l, op, higher)
  {
  }

  predicate Plain(s: Rcu, g: Ptr, weak: bool)
    requires g in s.z.guards
  {
    !s.z.guards[g].pc.Holding? && !s.z.guards[g].pc.ReapNode? && !s.z.guards[g].pc.Clear? && !Publishes(s.z, g, weak)
  }

  lemma PlainHandle(s: Rcu, g: Ptr, weak: bool, h: Ptr)
    requires ZombieStack.Inv(s.z) && g in s.z.guards && h in s.views && h in s.z.guards
    requires Plain(s, g, weak) && HandleOk(s, h)
    ensures var t := s.(z := Advance(s.z, g, weak)); h in t.z.guards && HandleOk(t, h)
  {
    var t := s.(z := Advance(s.z, g, weak));
    assert GuardOk(s.z.m, h, s.z.guards[h]);
    if h != g { AdvanceOther(s.z, g, weak, h); }
    else if s.z.guards[g].pc.Locking() { AdvanceLocking(s.z, g, weak); }
    else if s.z.guards[g].pc.Pushing() { AdvancePushing(s.z, g, weak); }
    else { AdvanceUnlocking(s.z, g, weak); }
    if !s.z.guards[h].pc.Locking() { AdvancePosition(s.z, g, weak, h); }
  }

  lemma PlainMutex(s: Rcu, g: Ptr, weak: bool)
    requires ZombieStack.Inv(s.z) && g in s.z.guards && Plain(s, g, weak) && MutexOk(s)
    ensures MutexOk(s.(z := Advance(s.z, g, weak)))
  {
    assert GuardOk(s.z.m, g, s.z.guards[g]);
    if s.mutex != 0 {
      assert GuardOk(s.z.m, s.mutex, s.z.guards[s.mutex]);
      if s.mutex != g {
        AdvanceOther(s.z, g, weak, s.mutex);
        if s.op.ErPush? { AdvanceNode(s.z, g, weak, s.z.guards[s.mutex].pc.z); }
      } else {
        AdvancePushing(s.z, g, weak);
      }
    }
  }

  lemma PlainZombies(s: Rcu, g: Ptr, weak: bool)
    requires ZombieStack.Inv(s.z) && g in s.z.guards && Plain(s, g, weak) && ZombiesOk(s)
    ensures ZombiesOk(s.(z := Advance(s.z, g, weak)))
  {
    var t := s.(z := Advance(s.z, g, weak));
    forall i {:trigger HeldNode(t.z, i)} ensures HeldNode(t.z, i) == HeldNode(s.z, i) { AdvanceHeld(s.z, g, weak, i); }
    SameHeld(s, t);
  }

  lemma PlainKeys(s: Rcu, g: Ptr, weak: bool)
    requires ZombieStack.Inv(s.z) && g in s.z.guards && Plain(s, g, weak)
    ensures Advance(s.z, g, weak).guards.Keys == s.z.guards.Keys
  {
    assert GuardOk(s.z.m, g, s.z.guards[g]);
    if s.z.guards[g].pc.Locking() { AdvanceLocking(s.z, g, weak); }
    else if s.z.guards[g].pc.Pushing() { AdvancePushing(s.z, g, weak); }
    else { AdvanceUnlocking(s.z, g, weak); }
    forall h ensures h in Advance(s.z, g, weak).guards <==> h in s.z.guards {
      if h != g { AdvanceOther(s.z, g, weak, h); }
    }
  }

  lemma PlainInv(s: Rcu, g: Ptr, weak: bool)
    requires Inv(s) && g in s.z.guards && Plain(s, g, weak)
    ensures Inv(s.(z := Advance(s.z, g, weak)))
  {
    var t := s.(z := Advance(s.z, g, weak));
    AdvanceInv(s.z, g, weak);
    AdvanceFloor(s.z, g, weak);
    RaiseFloor(s.l, s.op, s.z.m.floor, t.z.m.floor);
    PlainMutex(s, g, weak);
    PlainZombies(s, g, weak);
    PlainKeys(s, g, weak);
    forall h | h in t.views ensures HandleOk(t, h) { PlainHandle(s, g, weak, h); }
  }

  // The guard is gone.

  lemma ClearRest(s: Rcu, g: Ptr, weak: bool, h: Ptr)
    requires ZombieStack.Inv(s.z) && g in s.z.guards && s.z.guards[g].pc.Clear?
    requires h in s.views && h in s.z.guards && h != g && HandleOk(s, h)
    ensures var t := s.(z := Advance(s.z, g, weak), views := s.views - {g}); h in t.z.guards && HandleOk(t, h)
  {
    var t := s.(z := Advance(s.z, g, weak), views := s.views - {g});
    AdvanceOther(s.z, g, weak, h);
    if !s.z.guards[h].pc.Locking() { AdvancePosition(s.z, g, weak, h); }
    HandleStays(s, t, h);
  }

  lemma ClearZombies(s: Rcu, g: Ptr, weak: bool)
    requires ZombieStack.Inv(s.z) && g in s.z.guards && s.z.guards[g].pc.Clear? && ZombiesOk(s)
    ensures ZombiesOk(s.(z := Advance(s.z, g, weak), views := s.views - {g}))
  {
    var t := s.(z := Advance(s.z, g, weak), views := s.views - {g});
    forall i {:trigger HeldNode(t.z, i)} ensures HeldNode(t.z, i) == HeldNode(s.z, i) { AdvanceHeld(s.z, g, weak, i); }
    SameHeld(s, t);
  }

  lemma ClearMutex(s: Rcu, g: Ptr, weak: bool)
    requires ZombieStack.Inv(s.z) && g in s.z.guards && s.z.guards[g].pc.Clear? && MutexOk(s)
    ensures MutexOk(s.(z := Advance(s.z, g, weak), views := s.views - {g}))
  {
    if s.mutex != 0 {
      AdvanceOther(s.z, g, weak, s.mutex);
      assert GuardOk(s.z.m, s.mutex, s.z.guards[s.mutex]);
      if s.op.ErPush? { AdvanceNode(s.z, g, weak, s.z.guards[s.mutex].pc.z); }
    }
  }

  lemma ClearInv(s: Rcu, g: Ptr, weak: bool)
    requires Inv(s) && g in s.z.guards && s.z.guards[g].pc.Clear?
    ensures Inv(s.(z := Advance(s.z, g, weak), views := s.views - {g}))
  {
    var t := s.(z := Advance(s.z, g, weak), views := s.views - {g});
    AdvanceInv(s.z, g, weak);
    AdvanceFloor(s.z, g, weak);
    RaiseFloor(s.l, s.op, s.z.m.floor, t.z.m.floor);
    ClearZombies(s, g, weak);
    ClearMutex(s, g, weak);
    assert t.views.Keys == t.z.guards.Keys by { assert GuardOk(s.z.m, g, s.z.guards[g]); }
    forall h | h in t.views ensures HandleOk(t, h) { ClearRest(s, g, weak, h); }
  }

  // Freeing a data node.

  function Drop(l: Links, d: Ptr): Links {
    l.(nodes := l.nodes - {d})
  }

  lemma DropList(l: Links, d: Ptr, op: Op)
    requires ListOk(l) && BacksOk(l, op) && d in l.nodes && !IsLinked(l, d)
    ensures ListOk(Drop(l, d)) && BacksOk(Drop(l, d), op)
    ensures forall x {:trigger IsLinked(Drop(l, d), x)} :: IsLinked(Drop(l, d), x) <==> IsLinked(l, x)
  {
    var t := Drop(l, d);
    assert AllLinked(t) by {
      forall i {:trigger t.list[i]} | 0 <= i < |t.list| ensures IsLinked(t, t.list[i]) { assert IsLinked(l, l.list[i]); }
    }
    assert Forward(t) by {
      forall i {:trigger ForwardAt(t, i)} | 0 <= i < |t.list| ensures ForwardAt(t, i) { assert ForwardAt(l, i); }
    }
    forall i {:trigger BackAt(t, op, i)} | 0 <= i < |t.list| ensures BackAt(t, op, i) { assert BackAt(l, op, i); }
  }

  lemma DropFrozens(l: Links, d: Ptr, floor: int)
    requires FrozensOk(l, floor) && d in l.nodes && l.nodes[d].status.Retired? && l.nodes[d].status.stamp < floor
    ensures FrozensOk(Drop(l, d), floor)
  {
    var t := Drop(l, d);
    assert forall x {:trigger IsLinked(t, x)} :: IsLinked(t, x) <==> IsLinked(l, x);
    forall x | x in t.nodes && Frozen(t.nodes[x], floor) ensures FrozenOk(t, x) { assert FrozenOk(l, x); }
  }

  /** A retired node below the floor can be freed: nothing reachable leads to it. */
  lemma DropOk(l: Links, d: Ptr, op: Op, floor: int)
    requires LinksInv(l, op, floor) && d in l.nodes && l.nodes[d].status.Retired? && l.nodes[d].status.stamp < floor
    requires op.ErMark? ==> op.c != d
    ensures LinksInv(Drop(l, d), op, floor)
  {
    DropList(l, d, op);
    DropFrozens(l, d, floor);
    DropRanks(l, d);
    DropNodes(l, d, op);
  }

  lemma DropRanks(l: Links, d: Ptr)
    requires RanksOk(l)
    ensures RanksOk(Drop(l, d))
  {
    var t := Drop(l, d);
    forall x | x in t.nodes ensures DatesOk(t, x) { assert DatesOk(l, x); }
  }

  lemma DropNodes(l: Links, d: Ptr, op: Op)
    requires NodesOk(l, op) && OpOk(l, op) && d in l.nodes && l.nodes[d].status.Retired? && (op.ErMark? ==> op.c != d)
    ensures NodesOk(Drop(l, d), op) && OpOk(Drop(l, d), op)
  {
    var t := Drop(l, d);
    forall x | x in t.nodes ensures NodeOk(t.nodes[x], x, op) { assert NodeOk(l.nodes[x], x, op); }
  }

  lemma DropView(l: Links, d: Ptr, floor: int, k: int, v: View)
    requires d in l.nodes && l.nodes[d].status.Retired? && l.nodes[d].status.stamp < floor <= k && ViewOk(l, k, v)
    ensures ViewOk(Drop(l, d), k, v)
  {
    var t := Drop(l, d);
    assert d !in v.held;
    assert forall x {:trigger IsLinked(t, x)} :: IsLinked(t, x) <==> IsLinked(l, x);
  }

  /** The node a reaper is about to free is live and lies below the floor. */
  lemma DeadNode(s: Rcu, g: Ptr)
    requires ZombieStack.Inv(s.z) && ZombiesOk(s) && g in s.z.guards && s.z.guards[g].pc.ReapNode?
    ensures var d := s.z.guards[g].pc.dead;
            && d in s.l.nodes && s.l.nodes[d].status == Retired(s.z.m.hi - 1) && s.z.m.hi - 1 < s.z.m.floor
            && HeldNode(s.z, s.z.m.hi - 1) == d
  {
    assert GuardOk(s.z.m, g, s.z.guards[g]);
    assert s.z.m.Live(s.z.m.hi - 1);
    assert HeldNode(s.z, s.z.m.hi - 1) == s.z.guards[g].pc.dead;
  }

  function Freed(s: Rcu, g: Ptr, d: Ptr): Rcu
    requires g in s.z.guards
  {
    s.(z := Advance(s.z, g, false), l := Drop(s.l, d))
  }

  lemma FreeHandle(s: Rcu, g: Ptr, d: Ptr, h: Ptr)
    requires ZombieStack.Inv(s.z) && g in s.z.guards && s.z.guards[g].pc.ReapNode?
    requires d in s.l.nodes && s.l.nodes[d].status.Retired? && s.l.nodes[d].status.stamp < s.z.m.floor
    requires h in s.views && h in s.z.guards && HandleOk(s, h)
    ensures h in Freed(s, g, d).z.guards && HandleOk(Freed(s, g, d), h)
  {
    if s.z.guards[h].pc.Holding? || s.z.guards[h].pc.Pushing() {
      PositionLive(s.z, h);
      AdvancePosition(s.z, g, false, h);
      DropView(s.l, d, s.z.m.floor, Position(s.z, h), s.views[h]);
    }
  }

  lemma FreeZombies(s: Rcu, g: Ptr, d: Ptr)
    requires ZombieStack.Inv(s.z) && ZombiesOk(s) && g in s.z.guards && s.z.guards[g].pc.ReapNode?
    requires d in s.l.nodes && s.l.nodes[d].status == Retired(s.z.m.hi - 1) && HeldNode(s.z, s.z.m.hi - 1) == d
    ensures ZombiesOk(Freed(s, g, d))
  {
    var t := Freed(s, g, d);
    forall i {:trigger HeldNode(t.z, i)} | HeldNode(t.z, i) != 0
      ensures HeldNode(t.z, i) in t.l.nodes && t.l.nodes[HeldNode(t.z, i)].status == Retired(i)
    {
      AdvanceHeld(s.z, g, false, i);
      assert HeldNode(s.z, i) in s.l.nodes;
    }
    forall x | x in t.l.nodes && t.l.nodes[x].status.Retired? ensures HeldNode(t.z, t.l.nodes[x].status.stamp) == x {
      AdvanceHeld(s.z, g, false, t.l.nodes[x].status.stamp);
    }
  }

  /** Nobody, and no operation, stands on a node below the floor. */
  lemma FreeStructure(s: Rcu, d: Ptr)
    requires Inv(s) && d in s.l.nodes && s.l.nodes[d].status.Retired? && s.l.nodes[d].status.stamp < s.z.m.floor
    ensures LinksInv(Drop(s.l, d), s.op, s.z.m.floor)
  {
    if s.op.ErMark? {
      assert HandleOk(s, s.mutex);
      PositionLive(s.z, s.mutex);
    }
    DropOk(s.l, d, s.op, s.z.m.floor);
  }

  lemma FreeMutex(s: Rcu, g: Ptr, d: Ptr)
    requires ZombieStack.Inv(s.z) && g in s.z.guards && s.z.guards[g].pc.ReapNode? && MutexOk(s)
    ensures MutexOk(Freed(s, g, d))
  {
    if s.mutex != 0 { AdvanceOther(s.z, g, false, s.mutex); }
  }

  lemma FreeHandles(s: Rcu, g: Ptr, d: Ptr)
    requires ZombieStack.Inv(s.z) && HandlesOk(s) && g in s.z.guards && s.z.guards[g].pc.ReapNode?
    requires d in s.l.nodes && s.l.nodes[d].status.Retired? && s.l.nodes[d].status.stamp < s.z.m.floor
    ensures HandlesOk(Freed(s, g, d)) && Freed(s, g, d).z.m == s.z.m
  {
    assert Freed(s, g, d).z.guards.Keys == s.z.guards.Keys;
    forall h | h in s.views ensures HandleOk(Freed(s, g, d), h) { FreeHandle(s, g, d, h); }
  }

  lemma FreeInv(s: Rcu, g: Ptr)
    requires Inv(s) && g in s.z.guards && s.z.guards[g].pc.ReapNode?
    ensures s.z.guards[g].pc.dead in s.l.nodes && Inv(Freed(s, g, s.z.guards[g].pc.dead))
  {
    var d := s.z.guards[g].pc.dead;
    DeadNode(s, g);
    AdvanceInv(s.z, g, false);
    FreeStructure(s, d);
    FreeZombies(s, g, d);
    FreeMutex(s, g, d);
    FreeHandles(s, g, d);
  }

  // Publishing a zombie entry.

  lemma RetiredList(l: Links, c: Ptr, m: nat)
    requires ListOk(l) && BacksOk(l, ErPush(c)) && c in l.nodes && l.nodes[c].status == Transit
    ensures ListOk(RetireNode(l, c, m)) && BacksOk(RetireNode(l, c, m), Idle)
    ensures forall x {:trigger IsLinked(RetireNode(l, c, m), x)} :: IsLinked(RetireNode(l, c, m), x) <==> IsLinked(l, x)
  {
    var t := RetireNode(l, c, m);
    assert AllLinked(t) by {
      forall i {:trigger t.list[i]} | 0 <= i < |t.list| ensures IsLinked(t, t.list[i]) { assert IsLinked(l, l.list[i]); }
    }
    assert Forward(t) by {
      forall i {:trigger ForwardAt(t, i)} | 0 <= i < |t.list| ensures ForwardAt(t, i) { assert ForwardAt(l, i); }
    }
    forall i {:trigger BackAt(t, Idle, i)} | 0 <= i < |t.list| ensures BackAt(t, Idle, i) {
      assert BackAt(l, ErPush(c), i);
    }
  }

  lemma RetiredNodes(l: Links, c: Ptr, m: nat)
    requires 0 !in l.nodes && RanksOk(l) && NodesOk(l, ErPush(c)) && c in l.nodes && l.nodes[c].status == Transit
    ensures RanksOk(RetireNode(l, c, m)) && NodesOk(RetireNode(l, c, m), Idle)
  {
    var t := RetireNode(l, c, m);
    forall x | x in t.nodes ensures DatesOk(t, x) && NodeOk(t.nodes[x], x, Idle) {
      assert DatesOk(l, x) && NodeOk(l.nodes[x], x, ErPush(c));
    }
  }

  lemma RetiredEvolves(l: Links, c: Ptr, m: nat)
    requires NodesOk(l, ErPush(c)) && c in l.nodes && l.nodes[c].status == Transit
    ensures Evolves(l, RetireNode(l, c, m), m)
  {
    var t := RetireNode(l, c, m);
    assert forall x {:trigger IsLinked(t, x)} :: IsLinked(t, x) <==> IsLinked(l, x);
  }

  lemma RetiredStructure(l: Links, c: Ptr, floor: int, m: nat)
    requires LinksInv(l, ErPush(c), floor) && RetiredBelow(l, m)
    ensures LinksInv(RetireNode(l, c, m), Idle, floor) && Evolves(l, RetireNode(l, c, m), m)
  {
    var t := RetireNode(l, c, m);
    RetiredList(l, c, m);
    RetiredNodes(l, c, m);
    RetiredEvolves(l, c, m);
    forall x | x in t.nodes && Frozen(t.nodes[x], floor) ensures FrozenOk(t, x) { EvolvesFrozen(l, t, m, floor, x); }
  }

  function Published(s: Rcu, g: Ptr): Rcu
    requires g in s.z.guards && s.op.ErPush?
  {
    s.(z := Advance(s.z, g, false), l := RetireNode(s.l, s.op.c, |s.z.m.log|), op := Idle)
  }

  lemma PublishZombies(s: Rcu, g: Ptr)
    requires ZombieStack.Inv(s.z) && ZombiesOk(s) && g in s.z.guards && Publishes(s.z, g, false)
    requires 0 !in s.l.nodes && s.op.ErPush? && s.op.c in s.l.nodes && s.l.nodes[s.op.c].status == Transit
    requires s.z.guards[g].pc.z in s.z.m.entries && s.z.m.entries[s.z.guards[g].pc.z].node == s.op.c
    ensures ZombiesOk(Published(s, g))
  {
    var t, m := Published(s, g), |s.z.m.log|;
    forall i {:trigger HeldNode(t.z, i)} | HeldNode(t.z, i) != 0
      ensures HeldNode(t.z, i) in t.l.nodes && t.l.nodes[HeldNode(t.z, i)].status == Retired(i)
    {
      AdvanceHeld(s.z, g, false, i);
      if i != m { assert HeldNode(s.z, i) in s.l.nodes; }
    }
    forall x | x in t.l.nodes && t.l.nodes[x].status.Retired? ensures HeldNode(t.z, t.l.nodes[x].status.stamp) == x {
      AdvanceHeld(s.z, g, false, t.l.nodes[x].status.stamp);
      if x != s.op.c { assert HeldNode(s.z, s.l.nodes[x].status.stamp) == x && !s.z.m.Live(m); }
    }
  }

  lemma PublishHandle(s: Rcu, g: Ptr, h: Ptr)
    requires ZombieStack.Inv(s.z) && g in s.z.guards && Publishes(s.z, g, false) && s.op.ErPush?
    requires RanksOk(s.l) && Evolves(s.l, RetireNode(s.l, s.op.c, |s.z.m.log|), |s.z.m.log|)
    requires h in s.views && h in s.z.guards && HandleOk(s, h) && g == s.mutex
    ensures h in Published(s, g).z.guards && HandleOk(Published(s, g), h)
  {
    var t := Published(s, g);
    assert GuardOk(s.z.m, g, s.z.guards[g]);
    if h == g { AdvancePushing(s.z, g, false); } else { AdvanceOther(s.z, g, false, h); }
    if s.z.guards[h].pc.Holding? || s.z.guards[h].pc.Pushing() {
      PositionLive(s.z, h);
      AdvancePosition(s.z, g, false, h);
      EvolvesView(s.l, t.l, |s.z.m.log|, Position(s.z, h), s.views[h]);
    }
  }

  /** Only the writer publishes zombie entries, each for the node it erased. */
  lemma PublishIsErase(s: Rcu, g: Ptr)
    requires ZombieStack.Inv(s.z) && g in s.z.guards && g in s.views && Publishes(s.z, g, false)
    requires MutexOk(s) && HandleOk(s, g) && OpOk(s.l, s.op)
    ensures s.op.ErPush? && g == s.mutex && s.op.c in s.l.nodes && s.l.nodes[s.op.c].status == Transit
    ensures s.z.guards[g].pc.z in s.z.m.entries && s.z.m.entries[s.z.guards[g].pc.z].node == s.op.c
    ensures g in Advance(s.z, g, false).guards && Advance(s.z, g, false).guards[g].pc.Holding?
    ensures Advance(s.z, g, false).m.floor == s.z.m.floor
    ensures Advance(s.z, g, false).guards.Keys == s.z.guards.Keys
  {
    assert GuardOk(s.z.m, g, s.z.guards[g]);
  }

  lemma PublishInv(s: Rcu, g: Ptr)
    requires Inv(s) && g in s.z.guards && g in s.views && Publishes(s.z, g, false)
    ensures s.op.ErPush? && Inv(Published(s, g))
  {
    PublishIsErase(s, g);
    AdvanceInv(s.z, g, false);
    RetiredAreBelow(s);
    RetiredStructure(s.l, s.op.c, s.z.m.floor, |s.z.m.log|);
    PublishZombies(s, g);
    forall h | h in s.views ensures HandleOk(Published(s, g), h) { PublishHandle(s, g, h); }
  }

  lemma PublishStep(s: Rcu, g: Ptr, weak: bool)
    requires Inv(s) && Enabled(s, Step(g, weak)) && Publishes(s.z, g, weak)
    ensures Inv(Do(s, Step(g, weak)))
  {
    PublishInv(s, g);
    PublishDo(s, g);
  }

  lemma FreeStep(s: Rcu, g: Ptr, weak: bool)
    requires Inv(s) && Enabled(s, Step(g, weak)) && s.z.guards[g].pc.ReapNode?
    ensures Inv(Do(s, Step(g, weak)))
  {
    FreeInv(s, g);
    FreeDo(s, g, weak);
  }

  /** The steps that hand a node to the stack or free one. */
  lemma NodeStep(s: Rcu, g: Ptr, weak: bool)
    requires Inv(s) && Enabled(s, Step(g, weak)) && (Publishes(s.z, g, weak) || s.z.guards[g].pc.ReapNode?)
    ensures Inv(Do(s, Step(g, weak)))
  {
    if s.z.guards[g].pc.ReapNode? { FreeStep(s, g, weak); } else { PublishStep(s, g, weak); }
  }

  lemma OtherStep(s: Rcu, g: Ptr, weak: bool)
    requires Inv(s) && Enabled(s, Step(g, weak)) && !Publishes(s.z, g, weak) && !s.z.guards[g].pc.ReapNode?
    ensures Inv(Do(s, Step(g, weak)))
  {
    if s.z.guards[g].pc.Clear? { ClearStep(s, g, weak); } else { PlainStep(s, g, weak); }
  }

  lemma StepInv(s: Rcu, g: Ptr, weak: bool)
    requires Inv(s) && Enabled(s, Step(g, weak))
    ensures Inv(Do(s, Step(g, weak)))
  {
    if Publishes(s.z, g, weak) || s.z.guards[g].pc.ReapNode? { NodeStep(s, g, weak); } else { OtherStep(s, g, weak); }
  }

  lemma ClearStep(s: Rcu, g: Ptr, weak: bool)
    requires Inv(s) && Enabled(s, Step(g, weak)) && s.z.guards[g].pc.Clear?
    ensures Inv(Do(s, Step(g, weak)))
  {
    ClearInv(s, g, weak);
    ClearDo(s, g, weak);
  }

  lemma ClearDo(s: Rcu, g: Ptr, weak: bool)
    requires Enabled(s, Step(g, weak)) && s.z.guards[g].pc.Clear?
    ensures Do(s, Step(g, weak)) == s.(z := Advance(s.z, g, weak), views := s.views - {g})
  {
  }

  lemma PlainStep(s: Rcu, g: Ptr, weak: bool)
    requires Inv(s) && Enabled(s, Step(g, weak)) && Plain(s, g, weak)
    ensures Inv(Do(s, Step(g, weak)))
  {
    PlainInv(s, g, weak);
    PlainDo(s, g, weak);
  }

  lemma PublishDo(s: Rcu, g: Ptr)
    requires ZombieStack.Inv(s.z) && Enabled(s, Step(g, false)) && Publishes(s.z, g, false)
    requires MutexOk(s) && HandleOk(s, g) && OpOk(s.l, s.op)
    ensures s.op.ErPush? && Do(s, Step(g, false)) == Published(s, g)
  {
    PublishIsErase(s, g);
  }

  lemma FreeDo(s: Rcu, g: Ptr, weak: bool)
    requires Enabled(s, Step(g, weak)) && s.z.guards[g].pc.ReapNode? && s.z.guards[g].pc.dead in s.l.nodes
    ensures Do(s, Step(g, weak)) == Freed(s, g, s.z.guards[g].pc.dead)
  {
  }

  lemma PlainDo(s: Rcu, g: Ptr, weak: bool)
    requires ZombieStack.Inv(s.z) && Enabled(s, Step(g, weak)) && Plain(s, g, weak)
    ensures Do(s, Step(g, weak)) == s.(z := Advance(s.z, g, weak))
  {
    if s.z.guards[g].pc.PushCas? {
      assert GuardOk(s.z.m, g, s.z.guards[g]);
      AdvancePushing(s.z, g, weak);
    }
  }

  /** Every action of every thread keeps the invariant. */
  lemma DoInv(s: Rcu, a: Action)
    requires Inv(s) && Enabled(s, a)
    ensures Inv(Do(s, a))
  {
    match a
    case Open(g, e, writer) => OpenInv(s, g, e, writer);
    case Step(g, weak) => StepInv(s, g, weak);
    case Acquire(g) => AcquireInv(s, g);
    case Begin(_) => TraverseInv(s, a);
    case Next(_) => TraverseInv(s, a);
    case Peek(_, _) => TraverseInv(s, a);
    case StartPush(g, n, front) => StartPushInv(s, g, n, front);
    case StartErase(g, c) => StartEraseInv(s, g, c);
    case Mutate(g) => MutateInv(s, g);
    case AllocZombie(g, e) => AllocZombieInv(s, g, e);
    case Close(g) => CloseInv(s, g);
  }
}
