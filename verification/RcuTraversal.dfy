/** What readers see: traversals over whole runs, the linearization points of the
    list operations, and where every node is at any time. */
module RcuTraversal {
  import opened ZombieStack
  import opened RcuLinks
  import opened RcuMachine
  import opened RcuTheorems

  /** No action rewrites an unlinked node, moves a linked one, or links anything
      but a node that was private. */
  ghost predicate NodesEvolve(l: Links, t: Links, m: int) {
    && l.now <= t.now
    && forall d {:trigger t.nodes[d]} :: d in t.nodes ==>
         if d in l.nodes then NodeEvolves(l.nodes[d], t.nodes[d], l.now, m) else t.nodes[d].status == Private
  }

  lemma RetireEvolves(l: Links, c: Ptr, m: nat)
    requires c in l.nodes ==> l.nodes[c].status == Transit
    ensures NodesEvolve(l, RetireNode(l, c, m), m)
  {
  }

  lemma PublishNodes(s: Rcu, g: Ptr)
    requires ZombieStack.Inv(s.z) && Enabled(s, Step(g, false)) && Publishes(s.z, g, false)
    requires MutexOk(s) && HandleOk(s, g) && OpOk(s.l, s.op)
    ensures NodesEvolve(s.l, Do(s, Step(g, false)).l, |s.z.m.log|)
  {
    PublishDo(s, g);
    RetireEvolves(s.l, s.op.c, |s.z.m.log|);
  }

  lemma PublishedNodes(s: Rcu, g: Ptr)
    requires RcuMachine.Inv(s) && Enabled(s, Step(g, false)) && Publishes(s.z, g, false)
    ensures NodesEvolve(s.l, Do(s, Step(g, false)).l, |s.z.m.log|)
  {
    assert HandleOk(s, g);
    PublishNodes(s, g);
  }

  lemma FreeNodes(s: Rcu, g: Ptr, weak: bool)
    requires RcuMachine.Inv(s) && Enabled(s, Step(g, weak)) && s.z.guards[g].pc.ReapNode?
    ensures NodesEvolve(s.l, Do(s, Step(g, weak)).l, |s.z.m.log|)
  {
    DeadNode(s, g);
    FreeDo(s, g, weak);
  }

  lemma StepNodes(s: Rcu, g: Ptr, weak: bool)
    requires RcuMachine.Inv(s) && Enabled(s, Step(g, weak))
    ensures NodesEvolve(s.l, Do(s, Step(g, weak)).l, |s.z.m.log|)
  {
    if Publishes(s.z, g, weak) { PublishedNodes(s, g); } else { UnpublishedNodes(s, g, weak); }
  }

  lemma UnpublishedNodes(s: Rcu, g: Ptr, weak: bool)
    requires RcuMachine.Inv(s) && Enabled(s, Step(g, weak)) && !Publishes(s.z, g, weak)
    ensures NodesEvolve(s.l, Do(s, Step(g, weak)).l, |s.z.m.log|)
  {
    if s.z.guards[g].pc.ReapNode? { FreeNodes(s, g, weak); } else { QuietNodes(s, g, weak); }
  }

  lemma QuietNodes(s: Rcu, g: Ptr, weak: bool)
    requires ZombieStack.Inv(s.z) && Enabled(s, Step(g, weak))
    requires !Publishes(s.z, g, weak) && !s.z.guards[g].pc.ReapNode?
    ensures Do(s, Step(g, weak)).l == s.l
  {
    if !s.z.guards[g].pc.Clear? { PlainDo(s, g, weak); }
  }

  lemma MutateNodes(s: Rcu, g: Ptr)
    requires RcuMachine.Inv(s) && Enabled(s, Mutate(g))
    ensures NodesEvolve(s.l, Do(s, Mutate(g)).l, |s.z.m.log|)
  {
    RetiredAreBelow(s);
    WriteInv(s.l, s.op, s.z.m.floor, |s.z.m.log|);
    EvolveNodes(s.l, Do(s, Mutate(g)).l, |s.z.m.log|);
  }

  lemma EvolveNodes(l: Links, t: Links, m: nat)
    requires Evolves(l, t, m)
    ensures NodesEvolve(l, t, m)
  {
  }

  lemma OtherNodes(s: Rcu, a: Action)
    requires Enabled(s, a) && !a.Step? && !a.Mutate?
    ensures NodesEvolve(s.l, Do(s, a).l, |s.z.m.log|)
  {
  }

  lemma DoNodes(s: Rcu, a: Action)
    requires RcuMachine.Inv(s) && Enabled(s, a)
    ensures NodesEvolve(s.l, Do(s, a).l, |s.z.m.log|)
  {
    if a.Step? { StepNodes(s, a.g, a.weak); }
    else if a.Mutate? { MutateNodes(s, a.g); }
    else { OtherNodes(s, a); }
  }

  lemma RunNodes(tr: seq<Rcu>, i: nat)
    requires IsRun(tr) && 0 < i < |tr|
    ensures NodesEvolve(tr[i - 1].l, tr[i].l, |tr[i - 1].z.m.log|)
  {
    RunInv(tr, i - 1);
    var a := ActionAt(tr, i);
    DoNodes(tr[i - 1], a);
  }

  lemma RunListed(tr: seq<Rcu>, i: nat, x: Ptr)
    requires IsRun(tr) && i < |tr|
    ensures x in tr[i].l.list <==> IsLinked(tr[i].l, x)
    ensures x in tr[i].l.nodes ==> DatesOk(tr[i].l, x)
  {
    RunInv(tr, i);
    if x in tr[i].l.list {
      var k :| 0 <= k < |tr[i].l.list| && tr[i].l.list[k] == x;
      assert IsLinked(tr[i].l, tr[i].l.list[k]);
    }
  }

  /** x is in the list in every state from i to j. */
  ghost predicate Remains(tr: seq<Rcu>, i: nat, j: nat, x: Ptr)
    requires i <= j < |tr|
  {
    forall k {:trigger tr[k]} :: i <= k <= j ==> x in tr[k].l.list
  }

  lemma {:induction false} RemainsSame(tr: seq<Rcu>, i: nat, j: nat, x: Ptr)
    requires IsRun(tr) && i <= j < |tr| && Remains(tr, i, j, x)
    ensures IsLinked(tr[i].l, x) && IsLinked(tr[j].l, x)
    ensures tr[j].l.nodes[x].born == tr[i].l.nodes[x].born && tr[j].l.nodes[x].rank == tr[i].l.nodes[x].rank
    decreases j - i
  {
    RunListed(tr, j, x);
    if i < j {
      RemainsSame(tr, i, j - 1, x);
      RunNodes(tr, j);
    }
  }

  /** The pass of handle g at state j is the one begun in the step after state i. */
  ghost predicate PassSince(tr: seq<Rcu>, i: nat, j: nat, g: Ptr)
    requires i < j < |tr|
  {
    g in tr[j].views && tr[j].views[g].walk.Walk? && tr[j].views[g].walk.begun == tr[i].l.now
  }

  lemma RunWalk(tr: seq<Rcu>, j: nat, g: Ptr)
    requires IsRun(tr) && j < |tr| && g in tr[j].views && tr[j].views[g].walk.Walk?
    ensures WalkOk(tr[j].l, tr[j].views[g].held, tr[j].views[g].walk)
  {
    RunInv(tr, j);
    assert HandleOk(tr[j], g);
  }

  /** A pass that has ended visited, exactly once, every node that was in the list
      from its begin to its end, whatever was erased and inserted meanwhile. */
  lemma TraversalCovers(tr: seq<Rcu>, i: nat, j: nat, g: Ptr, x: Ptr) returns (k: nat)
    requires IsRun(tr) && i < j < |tr| && PassSince(tr, i, j, g) && tr[j].views[g].walk.cur == 0
    requires Remains(tr, i, j, x)
    ensures var v := tr[j].views[g].walk.visited;
            k < |v| && v[k] == x && forall n :: 0 <= n < |v| && v[n] == x ==> n == k
  {
    RunWalk(tr, j, g);
    RemainsSame(tr, i, j, x);
    RunListed(tr, i, x);
    var v := tr[j].views[g].walk.visited;
    assert IsLinked(tr[j].l, x) && x in v;
    k :| 0 <= k < |v| && v[k] == x;
  }

  /** Of two nodes that stayed, the one ahead in the list is visited first. */
  lemma TraversalInOrder(tr: seq<Rcu>, i: nat, j: nat, g: Ptr, a: nat, b: nat, m: nat, n: nat)
    requires IsRun(tr) && i < j < |tr| && PassSince(tr, i, j, g)
    requires a < b < |tr[i].l.list| && Remains(tr, i, j, tr[i].l.list[a]) && Remains(tr, i, j, tr[i].l.list[b])
    requires m < |tr[j].views[g].walk.visited| && tr[j].views[g].walk.visited[m] == tr[i].l.list[a]
    requires n < |tr[j].views[g].walk.visited| && tr[j].views[g].walk.visited[n] == tr[i].l.list[b]
    ensures m < n
  {
    RunWalk(tr, j, g);
    RemainsSame(tr, i, j, tr[i].l.list[a]);
    RemainsSame(tr, i, j, tr[i].l.list[b]);
    RunInv(tr, i);
  }

  /** No pass visits a node twice, even when the nodes it stands on are erased. */
  lemma NeverRevisits(tr: seq<Rcu>, j: nat, g: Ptr, m: nat, n: nat)
    requires IsRun(tr) && j < |tr| && g in tr[j].views && tr[j].views[g].walk.Walk?
    requires m < n < |tr[j].views[g].walk.visited|
    ensures tr[j].views[g].walk.visited[m] != tr[j].views[g].walk.visited[n]
  {
    RunWalk(tr, j, g);
  }

  /** A node found unlinked, at a date not before state i, was in the list at some
      moment since. */
  lemma {:induction false} WasListed(tr: seq<Rcu>, i: nat, j: nat, x: Ptr) returns (k: nat)
    requires IsRun(tr) && i <= j < |tr| && x in tr[j].l.nodes && tr[j].l.nodes[x].status.Unlinked()
    requires tr[j].l.nodes[x].gone >= tr[i].l.now
    ensures i <= k <= j && x in tr[k].l.list
    decreases j - i
  {
    RunListed(tr, j, x);
    if i < j {
      RunNodes(tr, j);
      RunListed(tr, j - 1, x);
      if IsLinked(tr[j - 1].l, x) { k := j - 1; } else { k := WasListed(tr, i, j - 1, x); }
    } else {
      assert false;
    }
  }

  /** A pass visits only nodes that were in the list at some moment since it began. */
  lemma VisitsOnlyListed(tr: seq<Rcu>, i: nat, j: nat, g: Ptr, n: nat) returns (k: nat)
    requires IsRun(tr) && i < j < |tr| && PassSince(tr, i, j, g) && n < |tr[j].views[g].walk.visited|
    ensures i <= k <= j && tr[j].views[g].walk.visited[n] in tr[k].l.list
  {
    RunWalk(tr, j, g);
    var x := tr[j].views[g].walk.visited[n];
    VisitedKnown(tr, j, g, n);
    RunListed(tr, j, x);
    if IsLinked(tr[j].l, x) { k := j; } else { k := WasListed(tr, i, j, x); }
  }

  lemma VisitedKnown(tr: seq<Rcu>, j: nat, g: Ptr, n: nat)
    requires IsRun(tr) && j < |tr| && g in tr[j].views && tr[j].views[g].walk.Walk?
    requires n < |tr[j].views[g].walk.visited|
    ensures var x := tr[j].views[g].walk.visited[n];
            x in tr[j].l.nodes && !tr[j].l.nodes[x].status.Private?
  {
    RunInv(tr, j);
    assert HandleOk(tr[j], g);
    assert tr[j].views[g].walk.visited[n] in tr[j].views[g].held;
  }

  // ------------------------------------------------ every node a handle obtains

  /** p was in the list at time `now` or later. */
  ghost predicate ListedSince(l: Links, now: nat, p: Ptr) {
    && p in l.nodes && !l.nodes[p].status.Private?
    && (l.nodes[p].status.Unlinked() ==> l.nodes[p].gone >= now)
  }

  /** Following a next field leads to a node that was in the list no less lately. */
  lemma NextListedSince(l: Links, floor: int, k: int, now: nat, p: Ptr)
    requires ListOk(l) && FrozensOk(l, floor) && floor <= k && Visible(l, k, p) && ListedSince(l, now, p)
    ensures l.nodes[p].next == 0 || ListedSince(l, now, l.nodes[p].next)
  {
    if IsLinked(l, p) { LinkedNext(l, p); } else { assert FrozenOk(l, p); }
  }

  /** What a step may add to the nodes a handle has obtained. */
  ghost predicate Obtains(l: Links, held: set<Ptr>, p: Ptr) {
    p == l.head || exists q :: q in held && q in l.nodes && p == l.nodes[q].next
  }

  /** A pass stands on a node that its handle has obtained. */
  lemma CurIsHeld(l: Links, v: View)
    requires v.walk.Walk? && v.walk.cur != 0 && WalkOk(l, v.held, v.walk)
    ensures v.walk.cur in v.held
  {
    assert v.walk.visited[|v.walk.visited| - 1] == v.walk.cur;
  }

  lemma StepObtains(s: Rcu, a: Action, g: Ptr, p: Ptr)
    requires Enabled(s, a) && g in s.views && g in s.z.guards && g in Do(s, a).views
    requires s.views[g].walk.Walk? && s.views[g].walk.cur != 0 ==> s.views[g].walk.cur in s.views[g].held
    requires p in Do(s, a).views[g].held && p !in s.views[g].held
    ensures a.Begin? || a.Next? || a.Peek? || a.StartErase?
    ensures a.g == g && Do(s, a).l == s.l && p != 0 && Obtains(s.l, s.views[g].held, p)
  {
  }

  /** All that handle g has obtained was in the list at time `now` or later. */
  ghost predicate HeldSince(s: Rcu, g: Ptr, now: nat)
    requires g in s.views
  {
    forall p :: p in s.views[g].held ==> ListedSince(s.l, now, p)
  }

  lemma ObtainsListed(l: Links, floor: int, k: int, v: View, now: nat, p: Ptr)
    requires ListOk(l) && FrozensOk(l, floor) && floor <= k && ViewOk(l, k, v)
    requires forall q :: q in v.held ==> ListedSince(l, now, q)
    requires p != 0 && Obtains(l, v.held, p)
    ensures ListedSince(l, now, p)
  {
    if p == l.head {
      HeadVisible(l, k);
    } else {
      var q :| q in v.held && q in l.nodes && p == l.nodes[q].next;
      NextListedSince(l, floor, k, now, q);
    }
  }

  /** What was in the list lately still counts as that while it is live. */
  lemma EvolvesListed(l: Links, t: Links, m: int, now: nat, p: Ptr)
    requires NodesEvolve(l, t, m) && ListedSince(l, now, p) && now <= l.now && p in t.nodes
    ensures ListedSince(t, now, p)
  {
  }

  lemma HandleView(s: Rcu, g: Ptr)
    requires RcuMachine.Inv(s) && g in s.views
    ensures g in s.z.guards && (forall p :: p in s.views[g].held ==> p in s.l.nodes)
    ensures s.views[g].walk.Walk? ==> WalkOk(s.l, s.views[g].held, s.views[g].walk)
  {
    assert HandleOk(s, g);
  }

  lemma HeldSinceStep(s: Rcu, a: Action, g: Ptr, now: nat)
    requires RcuMachine.Inv(s) && Enabled(s, a) && RcuMachine.Inv(Do(s, a)) && NodesEvolve(s.l, Do(s, a).l, |s.z.m.log|)
    requires g in s.views && g in Do(s, a).views && now <= s.l.now && HeldSince(s, g, now)
    ensures HeldSince(Do(s, a), g, now)
  {
    var t := Do(s, a);
    HandleView(s, g);
    HandleView(t, g);
    if s.views[g].walk.Walk? && s.views[g].walk.cur != 0 { CurIsHeld(s.l, s.views[g]); }
    forall p | p in t.views[g].held ensures ListedSince(t.l, now, p) {
      if p in s.views[g].held {
        EvolvesListed(s.l, t.l, |s.z.m.log|, now, p);
      } else {
        StepObtains(s, a, g, p);
        UsableObtains(s, a, g, now, p);
      }
    }
  }

  lemma UsableObtains(s: Rcu, a: Action, g: Ptr, now: nat, p: Ptr)
    requires RcuMachine.Inv(s) && Enabled(s, a) && (a.Begin? || a.Next? || a.Peek? || a.StartErase?) && a.g == g
    requires HeldSince(s, g, now) && p != 0 && Obtains(s.l, s.views[g].held, p)
    ensures ListedSince(s.l, now, p)
  {
    UsableView(s, g);
    ObtainsListed(s.l, s.z.m.floor, Position(s.z, g), s.views[g], now, p);
  }

  lemma RunHeld(tr: seq<Rcu>, j: nat, g: Ptr, now: nat)
    requires IsRun(tr) && 0 < j < |tr| && g in tr[j - 1].views && g in tr[j].views
    requires now <= tr[j - 1].l.now && HeldSince(tr[j - 1], g, now)
    ensures now <= tr[j].l.now && HeldSince(tr[j], g, now)
  {
    var a := ActionAt(tr, j);
    RunInv(tr, j - 1);
    RunNodes(tr, j);
    DoInv(tr[j - 1], a);
    HeldSinceStep(tr[j - 1], a, g, now);
  }

  /** Handle g is there in every state from i to j. */
  ghost predicate Handles(tr: seq<Rcu>, i: nat, j: nat, g: Ptr)
    requires j < |tr|
  {
    forall k {:trigger tr[k]} :: i <= k <= j ==> g in tr[k].views
  }

  lemma {:induction false} HeldSinceRun(tr: seq<Rcu>, i: nat, j: nat, g: Ptr)
    requires IsRun(tr) && i <= j < |tr| && Handles(tr, i, j, g) && tr[i].views[g].held == {}
    ensures HeldSince(tr[j], g, tr[i].l.now) && tr[i].l.now <= tr[j].l.now
    decreases j
  {
    if i < j {
      HeldSinceRun(tr, i, j - 1, g);
      RunHeld(tr, j, g, tr[i].l.now);
    }
  }

  /** Every node that a handle obtains in any way, by begin, by any iterator or by
      erase, was in the list at some moment since the handle held nothing; that is,
      since its guard was pushed. */
  lemma HeldWasListed(tr: seq<Rcu>, i: nat, j: nat, g: Ptr, p: Ptr) returns (k: nat)
    requires IsRun(tr) && i <= j < |tr| && Handles(tr, i, j, g) && tr[i].views[g].held == {}
    requires p in tr[j].views[g].held
    ensures i <= k <= j && p in tr[k].l.list
  {
    HeldSinceRun(tr, i, j, g);
    assert ListedSince(tr[j].l, tr[i].l.now, p);
    RunListed(tr, j, p);
    if IsLinked(tr[j].l, p) { k := j; } else { k := WasListed(tr, i, j, p); }
  }

  /** A handle has obtained nothing before its guard is on the stack. */
  lemma NothingBeforePushed(tr: seq<Rcu>, i: nat, g: Ptr)
    requires IsRun(tr) && i < |tr| && g in tr[i].views && g in tr[i].z.guards && tr[i].z.guards[g].pc.Locking()
    ensures tr[i].views[g].held == {}
  {
    RunInv(tr, i);
    assert HandleOk(tr[i], g);
  }

  /** While an erased node is live its next field never changes. */
  lemma {:induction false} ErasedNextIsFrozen(tr: seq<Rcu>, i: nat, j: nat, d: Ptr)
    requires IsRun(tr) && i <= j < |tr|
    requires forall k {:trigger tr[k]} :: i <= k <= j ==> d in tr[k].l.nodes
    requires tr[i].l.nodes[d].status.Unlinked()
    ensures tr[j].l.nodes[d].status.Unlinked() && tr[j].l.nodes[d].next == tr[i].l.nodes[d].next
    decreases j - i
  {
    if i < j {
      ErasedNextIsFrozen(tr, i, j - 1, d);
      RunNodes(tr, j);
    }
  }

  // ------------------------------------------------------------ linearization

  /** What a traversal with nothing changing would read from p on. */
  function ReadList(nodes: map<Ptr, Node>, p: Ptr, n: nat): seq<Ptr>
    decreases n
  {
    if n == 0 || p == 0 || p !in nodes then [] else [p] + ReadList(nodes, nodes[p].next, n - 1)
  }

  lemma {:induction false} ReadListSuffix(l: Links, i: nat, n: nat)
    requires ListOk(l) && i <= |l.list| && n > |l.list| - i
    ensures ReadList(l.nodes, At(l.list, i), n) == l.list[i..]
    decreases |l.list| - i
  {
    if i < |l.list| {
      assert IsLinked(l, l.list[i]) && ForwardAt(l, i);
      ReadListSuffix(l, i + 1, n - 1);
      assert l.list[i..] == [l.list[i]] + l.list[i + 1..];
    }
  }

  /** In every state, also in the middle of every operation, the forward chain that
      memory shows from the head is the abstract list. */
  lemma ForwardChainIsList(tr: seq<Rcu>, i: nat)
    requires IsRun(tr) && i < |tr|
    ensures ReadList(tr[i].l.nodes, tr[i].l.head, |tr[i].l.list| + 1) == tr[i].l.list
  {
    RunInv(tr, i);
    ReadListSuffix(tr[i].l, 0, |tr[i].l.list| + 1);
    assert tr[i].l.list[0..] == tr[i].l.list;
  }

  /** Before its linearization store an operation is pending. */
  predicate Pending(op: Op) {
    op.New() != 0 || op.ErMark? || op.ErBack? || op.ErUnlink?
  }

  /** The sequence operation that op stands for. */
  function Effect(q: seq<Ptr>, op: Op): seq<Ptr> {
    if op.PfLoad? || op.PfNext? || op.PfBack? || op.PfHead? then [op.n] + q
    else if op.PbLoad? || op.PbBack? || op.PbNext? || op.EmptyHead? then q + [op.n]
    else if op.ErMark? || op.ErBack? || op.ErUnlink? then Without(q, op.c)
    else q
  }

  /** The step ends the pending phase with the effect on the list, or leaves both
      alone, or finds the node erased already. */
  ghost predicate OneStore(l: Links, op: Op) {
    var (t, next, dead) := Write(l, op);
    || (Pending(op) && !Pending(next) && t.list == Effect(l.list, op) && (dead ==> t == l))
    || (t.list == l.list && Pending(next) == Pending(op)
        && (Pending(next) ==> Effect(t.list, next) == Effect(l.list, op)))
    || (op.ErMark? && next.Idle? && t == l && op.c !in l.list)
  }

  lemma MarkEffect(l: Links, op: Op)
    requires ListOk(l) && NodesOk(l, op) && OpOk(l, op) && op.ErMark?
    ensures OneStore(l, op)
  {
    assert NodeOk(l.nodes[op.c], op.c, op);
    if op.c in l.list {
      var k :| 0 <= k < |l.list| && l.list[k] == op.c;
      assert IsLinked(l, l.list[k]);
    }
  }

  lemma EraseEffect(l: Links, op: Op)
    requires ListOk(l) && OpOk(l, op) && (op.ErBack? || op.ErUnlink? || op.ErRelink?)
    requires op.ErUnlink? && op.p != 0 ==> op.p in l.nodes
    ensures OneStore(l, op)
  {
  }

  lemma LoadEffect(l: Links, op: Op)
    requires OpOk(l, op) && (op.PbLoad? || op.PfLoad?) && op.n != 0
    requires (l.head == 0 <==> l.list == []) && (l.tail == 0 <==> l.list == [])
    ensures OneStore(l, op)
  {
  }

  lemma PushBackEffect(l: Links, op: Op)
    requires OpOk(l, op) && (op.PbBack? || op.PbNext? || op.EmptyHead?) && op.n != 0 && (op.PbNext? ==> op.t in l.nodes)
    ensures OneStore(l, op)
  {
  }

  lemma PushFrontEffect(l: Links, op: Op)
    requires OpOk(l, op) && (op.PfNext? || op.PfBack? || op.PfHead?) && op.n != 0 && (op.PfBack? ==> op.h in l.nodes)
    ensures OneStore(l, op)
  {
  }

  /** Head and tail are null exactly when the list is empty; in between they may lag. */
  lemma EmptyEnds(l: Links, op: Op)
    requires ListOk(l) && (op.PbLoad? || op.PfLoad?) && l.tail == ExpectedTail(l, op)
    ensures (l.head == 0 <==> l.list == []) && (l.tail == 0 <==> l.list == [])
  {
    if l.list != [] { assert IsLinked(l, l.list[0]) && IsLinked(l, l.list[|l.list| - 1]); }
  }

  lemma TailEffect(l: Links, op: Op)
    requires op.PbTail? || op.EmptyTail?
    ensures OneStore(l, op)
  {
  }

  lemma PushEffect(l: Links, op: Op)
    requires ListOk(l) && OpOk(l, op) && l.tail == ExpectedTail(l, op) && (op.New() != 0 || op.PbTail? || op.EmptyTail?)
    ensures OneStore(l, op)
  {
    if l.list != [] { assert IsLinked(l, l.list[0]) && IsLinked(l, l.list[|l.list| - 1]); }
    if op.PbLoad? || op.PfLoad? { EmptyEnds(l, op); LoadEffect(l, op); }
    else if op.PbTail? || op.EmptyTail? { TailEffect(l, op); }
    else if op.PbBack? || op.PbNext? || op.EmptyHead? { PushBackEffect(l, op); }
    else { PushFrontEffect(l, op); }
  }

  lemma WriteEffect(l: Links, op: Op)
    requires ListOk(l) && NodesOk(l, op) && OpOk(l, op) && BacksOk(l, op) && Mutating(op)
    ensures OneStore(l, op)
  {
    if op.ErMark? { MarkEffect(l, op); }
    else if op.ErBack? || op.ErRelink? { EraseEffect(l, op); }
    else if op.ErUnlink? {
      var i := UnlinkAt(l, op);
      EraseEffect(l, op);
    }
    else { PushEffect(l, op); }
  }

  /** A step of an operation either is its one linearization store, which applies
      the sequence operation and ends the pending phase; or leaves the list alone
      and the operation where it was; or finds the node erased already and stops. */
  lemma OneLinearizationStore(s: Rcu, g: Ptr)
    requires RcuMachine.Inv(s) && Enabled(s, Mutate(g))
    ensures var t := Do(s, Mutate(g));
            || (Pending(s.op) && !Pending(t.op) && t.l.list == Effect(s.l.list, s.op))
            || (t.l.list == s.l.list && Pending(t.op) == Pending(s.op)
                && (Pending(t.op) ==> Effect(t.l.list, t.op) == Effect(s.l.list, s.op)))
            || (s.op.ErMark? && t.op.Idle? && t.l == s.l && s.op.c !in s.l.list)
  {
    WriteEffect(s.l, s.op);
  }

  /** Nothing but those stores changes the list. */
  lemma ListChangesOnlyByStores(s: Rcu, a: Action)
    requires Enabled(s, a) && !a.Mutate?
    ensures Do(s, a).l.list == s.l.list
  {
  }

  lemma {:induction false} WithoutAbsent(q: seq<Ptr>, c: Ptr)
    requires c !in q
    ensures Without(q, c) == q
  {
    if q != [] { WithoutAbsent(q[1..], c); }
  }

  /** A step of any thread while an operation is under way: it ends the pending phase
      with the effect of the operation, or leaves both the list and the effect. */
  ghost predicate Progress(q: seq<Ptr>, op: Op, r: seq<Ptr>, next: Op) {
    || (Pending(op) && !Pending(next) && r == Effect(q, op))
    || (r == q && Pending(next) == Pending(op) && (Pending(next) ==> Effect(r, next) == Effect(q, op)))
  }

  lemma StoreProgress(l: Links, op: Op)
    requires OneStore(l, op)
    ensures var (t, next, dead) := Write(l, op); Progress(l.list, op, t.list, next)
  {
    if op.ErMark? && op.c !in l.list { WithoutAbsent(l.list, op.c); }
  }

  lemma MutateProgress(s: Rcu, g: Ptr)
    requires Enabled(s, Mutate(g)) && ListOk(s.l) && NodesOk(s.l, s.op) && OpOk(s.l, s.op) && BacksOk(s.l, s.op)
    ensures var t := Do(s, Mutate(g)); Progress(s.l.list, s.op, t.l.list, t.op)
  {
    WriteEffect(s.l, s.op);
    StoreProgress(s.l, s.op);
  }

  lemma OthersProgress(s: Rcu, a: Action)
    requires MutexOk(s) && Enabled(s, a) && !s.op.Idle? && !a.Mutate?
    ensures var t := Do(s, a); Progress(s.l.list, s.op, t.l.list, t.op)
  {
    ListChangesOnlyByStores(s, a);
  }

  lemma RunProgress(tr: seq<Rcu>, j: nat)
    requires IsRun(tr) && 0 < j < |tr| && !tr[j - 1].op.Idle?
    ensures Progress(tr[j - 1].l.list, tr[j - 1].op, tr[j].l.list, tr[j].op)
  {
    RunInv(tr, j - 1);
    var a := ActionAt(tr, j);
    if a.Mutate? { MutateProgress(tr[j - 1], a.g); } else { OthersProgress(tr[j - 1], a); }
  }

  /** The step after state i begins an operation, which is not over before state j. */
  ghost predicate Operating(tr: seq<Rcu>, i: nat, j: nat)
    requires i < j < |tr|
  {
    tr[i].op.Idle? && forall n {:trigger tr[n]} :: i < n < j ==> !tr[n].op.Idle?
  }

  ghost predicate SameList(tr: seq<Rcu>, i: nat, j: nat, q: seq<Ptr>)
    requires j < |tr|
  {
    forall n {:trigger tr[n]} :: i <= n <= j ==> tr[n].l.list == q
  }

  lemma {:induction false} Linearized(tr: seq<Rcu>, i: nat, j: nat) returns (m: nat)
    requires IsRun(tr) && i + 1 < |tr| && i < j < |tr| && Operating(tr, i, j) && !tr[i + 1].op.Idle?
    ensures Pending(tr[j].op) ==>
              SameList(tr, i, j, tr[i].l.list) && Effect(tr[j].l.list, tr[j].op) == Effect(tr[i].l.list, tr[i + 1].op)
    ensures !Pending(tr[j].op) ==>
              && i < m < j && SameList(tr, i, m, tr[i].l.list)
              && SameList(tr, m + 1, j, Effect(tr[i].l.list, tr[i + 1].op))
    decreases j
  {
    m := j - 1;
    if j == i + 1 {
      var a := ActionAt(tr, j);
      StartsPending(tr[i], a);
    } else {
      var before := Linearized(tr, i, j - 1);
      RunProgress(tr, j);
      if !Pending(tr[j - 1].op) { m := before; }
    }
  }

  lemma StartsPending(s: Rcu, a: Action)
    requires Enabled(s, a) && s.op.Idle? && !Do(s, a).op.Idle?
    ensures Pending(Do(s, a).op) && Do(s, a).l.list == s.l.list
  {
  }

  /** Between the step that begins a push_back, push_front or erase and the one that
      ends it, whatever other threads do, there is exactly one moment at which the
      list changes, from what it was to the effect of the operation on that (which is
      no change if the node has been erased already). */
  lemma LinearizesOnce(tr: seq<Rcu>, i: nat, j: nat) returns (m: nat)
    requires IsRun(tr) && i + 1 < j < |tr| && Operating(tr, i, j) && tr[j].op.Idle?
    ensures i < m < j && SameList(tr, i, m, tr[i].l.list)
    ensures SameList(tr, m + 1, j, Effect(tr[i].l.list, tr[i + 1].op))
  {
    m := Linearized(tr, i, j);
  }

  // ------------------------------------------------------------ conservation

  predicate InStack(s: Rcu, d: Ptr, i: int) {
    HeldNode(s.z, i) == d
  }

  lemma NewIsPrivate(l: Links, op: Op, d: Ptr)
    requires NodesOk(l, op) && OpOk(l, op) && d != 0
    ensures d == op.New() <==> d in l.nodes && l.nodes[d].status.Private?
  {
    if d in l.nodes { assert NodeOk(l.nodes[d], d, op); }
  }

  lemma VictimIsInTransit(l: Links, op: Op, d: Ptr)
    requires NodesOk(l, op) && OpOk(l, op) && d != 0
    ensures d == op.Victim() <==> d in l.nodes && l.nodes[d].status.Transit?
  {
    if d in l.nodes { assert NodeOk(l.nodes[d], d, op); }
  }

  /** The history variable `status` tells the truth about where a node is. */
  lemma StatusIsPlace(l: Links, op: Op, d: Ptr)
    requires ListOk(l) && NodesOk(l, op) && OpOk(l, op) && d != 0
    ensures d == op.New() <==> d in l.nodes && l.nodes[d].status.Private?
    ensures d == op.Victim() <==> d in l.nodes && l.nodes[d].status.Transit?
    ensures d in l.list <==> IsLinked(l, d)
  {
    NewIsPrivate(l, op, d);
    VictimIsInTransit(l, op, d);
    if d in l.list {
      var k :| 0 <= k < |l.list| && l.list[k] == d;
      assert IsLinked(l, l.list[k]);
    }
  }

  lemma StackIsRetired(s: Rcu, d: Ptr, k: int)
    requires RcuMachine.Inv(s) && d != 0
    ensures InStack(s, d, k) <==> d in s.l.nodes && s.l.nodes[d].status == Retired(k)
  {
  }

  /** Every live node is in exactly one place: being inserted, in the list, in
      transit inside erase, or held by exactly one zombie entry. */
  lemma Conservation(tr: seq<Rcu>, i: nat, d: Ptr)
    requires IsRun(tr) && i < |tr| && d != 0
    ensures var s := tr[i];
            var private, listed, transit := d == s.op.New(), d in s.l.list, d == s.op.Victim();
            var zombie := exists k :: InStack(s, d, k);
            && (d in s.l.nodes <==> private || listed || transit || zombie)
            && !(private && listed) && !(private && transit) && !(private && zombie)
            && !(listed && transit) && !(listed && zombie) && !(transit && zombie)
            && (forall j, k :: InStack(s, d, j) && InStack(s, d, k) ==> j == k)
  {
    var s := tr[i];
    RunPlaces(tr, i, d);
    if d in s.l.nodes && s.l.nodes[d].status.Retired? { assert InStack(s, d, s.l.nodes[d].status.stamp); }
  }

  lemma RunPlaces(tr: seq<Rcu>, i: nat, d: Ptr)
    requires IsRun(tr) && i < |tr| && d != 0
    ensures d == tr[i].op.New() <==> d in tr[i].l.nodes && tr[i].l.nodes[d].status.Private?
    ensures d == tr[i].op.Victim() <==> d in tr[i].l.nodes && tr[i].l.nodes[d].status.Transit?
    ensures d in tr[i].l.list <==> IsLinked(tr[i].l, d)
    ensures forall k :: InStack(tr[i], d, k) <==> d in tr[i].l.nodes && tr[i].l.nodes[d].status == Retired(k)
  {
    RunInv(tr, i);
    StatusIsPlace(tr[i].l, tr[i].op, d);
    forall k ensures InStack(tr[i], d, k) <==> d in tr[i].l.nodes && tr[i].l.nodes[d].status == Retired(k) {
      StackIsRetired(tr[i], d, k);
    }
  }
}
