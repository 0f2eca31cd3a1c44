/** What the operations on an rcu_list do, named by the actions that begin them, over
    whole runs: push and erase, begin() and operator++, opening and closing a handle. */
module RcuActions {
  import opened ZombieStack
  import opened RcuLinks
  import opened RcuMachine
  import opened RcuTheorems
  import opened RcuTraversal

  ghost predicate ActsAt(tr: seq<Rcu>, acts: seq<Action>, i: nat)
    requires i < |acts| && |tr| == |acts| + 1
  {
    Enabled(tr[i], acts[i]) && tr[i + 1] == Do(tr[i], acts[i])
  }

  /** The run tr together with the actions that made it. */
  ghost predicate Performs(tr: seq<Rcu>, acts: seq<Action>) {
    |tr| == |acts| + 1 && tr[0] == Start && forall i {:trigger ActsAt(tr, acts, i)} :: 0 <= i < |acts| ==> ActsAt(tr, acts, i)
  }

  lemma PerformsIsRun(tr: seq<Rcu>, acts: seq<Action>)
    requires Performs(tr, acts)
    ensures IsRun(tr)
  {
    forall i {:trigger RcuTheorems.StepAt(tr, i)} | 0 < i < |tr| ensures RcuTheorems.StepAt(tr, i) {
      assert ActsAt(tr, acts, i - 1);
    }
  }

  // -------------------------------------------------------------- push and erase

  /** The node at position k is cut out, and no other. */
  ghost predicate CutOut(q: seq<Ptr>, r: seq<Ptr>, c: Ptr) {
    exists k :: 0 <= k < |q| && q[k] == c && r == q[..k] + q[k + 1..]
  }

  /** The action begins an operation, and does not touch the list itself. */
  lemma Begins(s: Rcu, a: Action)
    requires Enabled(s, a) && (a.StartPush? || (a.StartErase? && a.c in s.l.nodes))
    ensures s.op.Idle? && Pending(Do(s, a).op) && Do(s, a).l.list == s.l.list
    ensures a.StartPush? && a.front ==> Effect(s.l.list, Do(s, a).op) == [a.n] + s.l.list
    ensures a.StartPush? && !a.front ==> Effect(s.l.list, Do(s, a).op) == s.l.list + [a.n]
    ensures a.StartErase? ==> Effect(s.l.list, Do(s, a).op) == Without(s.l.list, a.c)
  {
  }

  lemma ErasedFrom(l: Links, c: Ptr)
    requires AllLinked(l) && Sorted(l)
    ensures if c in l.list then CutOut(l.list, Without(l.list, c), c) else Without(l.list, c) == l.list
  {
    if c in l.list {
      var k := IndexOf(l, c);
    } else {
      WithoutAbsent(l.list, c);
    }
  }

  /** push_front(n), push_back(n) and erase(c), from the action that begins one to the
      state in which it is over: up to some step the list is what it was at the
      beginning, and from then on it is that with n in front, with n at the end, or
      without c (and the same if c had been erased before). */
  lemma ActionLinearizes(tr: seq<Rcu>, acts: seq<Action>, i: nat, j: nat) returns (m: nat)
    requires Performs(tr, acts) && i + 1 < j < |tr| && (acts[i].StartPush? || acts[i].StartErase?)
    requires tr[j].op.Idle? && forall n {:trigger tr[n]} :: i < n < j ==> !tr[n].op.Idle?
    ensures i < m < j && SameList(tr, i, m, tr[i].l.list)
    ensures acts[i].StartPush? && acts[i].front ==> SameList(tr, m + 1, j, [acts[i].n] + tr[i].l.list)
    ensures acts[i].StartPush? && !acts[i].front ==> SameList(tr, m + 1, j, tr[i].l.list + [acts[i].n])
    ensures acts[i].StartErase? && acts[i].c !in tr[i].l.list ==> SameList(tr, m + 1, j, tr[i].l.list)
    ensures acts[i].StartErase? && acts[i].c in tr[i].l.list ==>
              exists r :: CutOut(tr[i].l.list, r, acts[i].c) && SameList(tr, m + 1, j, r)
  {
    PerformsIsRun(tr, acts);
    RunInv(tr, i);
    assert ActsAt(tr, acts, i);
    if acts[i].StartErase? { UsableView(tr[i], acts[i].g); }
    Begins(tr[i], acts[i]);
    m := LinearizesOnce(tr, i, j);
    if acts[i].StartErase? { ErasedFrom(tr[i].l, acts[i].c); }
  }

  /** What is pushed is a new node, and what erase returns is the next of the node it
      was given. */
  lemma PushesNewReturnsNext(tr: seq<Rcu>, acts: seq<Action>, i: nat)
    requires Performs(tr, acts) && i < |acts|
    ensures acts[i].StartPush? ==> acts[i].n !in tr[i].l.nodes && acts[i].n !in tr[i].l.list
    ensures acts[i].StartErase? ==>
              && acts[i].c in tr[i].l.nodes && acts[i].g in tr[i + 1].views
              && (tr[i].l.nodes[acts[i].c].next != 0 ==> tr[i].l.nodes[acts[i].c].next in tr[i + 1].views[acts[i].g].held)
  {
    PerformsIsRun(tr, acts);
    RunInv(tr, i);
    assert ActsAt(tr, acts, i);
    if acts[i].StartPush? { RunListed(tr, i, acts[i].n); }
    if acts[i].StartErase? { UsableView(tr[i], acts[i].g); }
  }

  // -------------------------------------------------------------- traversal

  /** begin(): the first node of the list, or the end. */
  lemma BeginStep(tr: seq<Rcu>, acts: seq<Action>, i: nat, g: Ptr)
    requires Performs(tr, acts) && i < |acts| && acts[i] == Begin(g)
    ensures g in tr[i + 1].views && tr[i + 1].views[g].walk.Walk?
    ensures var w, q := tr[i + 1].views[g].walk, tr[i].l.list;
            && w.cur == At(q, 0) && w.begun == tr[i].l.now
            && w.visited == (if q == [] then [] else [q[0]])
  {
    PerformsIsRun(tr, acts);
    RunInv(tr, i);
    assert ActsAt(tr, acts, i);
    if tr[i].l.list != [] { assert IsLinked(tr[i].l, tr[i].l.list[0]); }
  }

  lemma NextFromListed(l: Links, k: int)
    requires ListOk(l) && 0 <= k < |l.list|
    ensures l.list[k] in l.nodes && l.nodes[l.list[k]].next == At(l.list, k + 1)
  {
    assert IsLinked(l, l.list[k]) && ForwardAt(l, k);
  }

  lemma NextMoves(s: Rcu, g: Ptr)
    requires RcuMachine.Inv(s) && Enabled(s, Action.Next(g))
    ensures var t := Do(s, Action.Next(g)); var w, v := s.views[g].walk, t.views[g].walk;
            && v.Walk? && v.begun == w.begun && w.cur in s.l.nodes && v.cur == s.l.nodes[w.cur].next
            && (if v.cur == 0 then v.visited == w.visited else v.cur !in w.visited && v.visited == w.visited + [v.cur])
  {
    UsableView(s, g);
    var v := s.views[g];
    CurIsHeld(s.l, v);
    if s.l.nodes[v.walk.cur].next != 0 { NextAdvances(s.l, s.z.m.floor, Position(s.z, g), v); }
  }

  /** operator++: from a listed node to the one behind it in the list, from an erased
      node to where its frozen next leads; to the end, or to a node that this pass has
      not visited, and that is then its last. */
  lemma NextStep(tr: seq<Rcu>, acts: seq<Action>, i: nat, g: Ptr)
    requires Performs(tr, acts) && i < |acts| && acts[i] == Action.Next(g)
    ensures g in tr[i].views && g in tr[i + 1].views && tr[i].views[g].walk.Walk? && tr[i + 1].views[g].walk.Walk?
    ensures var w, v := tr[i].views[g].walk, tr[i + 1].views[g].walk;
            && w.cur != 0 && w.cur in tr[i].l.nodes
            && (forall k :: 0 <= k < |tr[i].l.list| && tr[i].l.list[k] == w.cur ==> v.cur == At(tr[i].l.list, k + 1))
            && v.cur == tr[i].l.nodes[w.cur].next
            && (if v.cur == 0 then v.visited == w.visited else v.cur !in w.visited && v.visited == w.visited + [v.cur])
            && v.begun == w.begun
  {
    PerformsIsRun(tr, acts);
    RunInv(tr, i);
    assert ActsAt(tr, acts, i);
    NextMoves(tr[i], g);
    forall k | 0 <= k < |tr[i].l.list| && tr[i].l.list[k] == tr[i].views[g].walk.cur
      ensures tr[i + 1].views[g].walk.cur == At(tr[i].l.list, k + 1)
    {
      NextFromListed(tr[i].l, k);
    }
  }

  /** The pass that step i began is still the current one of its handle in state j. */
  predicate InPass(acts: seq<Action>, i: nat, j: nat, g: Ptr)
    requires i < j <= |acts|
  {
    acts[i] == Begin(g) && forall k :: i < k < j ==> acts[k] != Begin(g) && acts[k] != Close(g)
  }

  /** How often the handle has used ++ from step i to step j. */
  function Nexts(acts: seq<Action>, i: nat, j: nat, g: Ptr): nat
    requires i <= j <= |acts|
    decreases j
  {
    if i == j then 0 else Nexts(acts, i, j - 1, g) + (if acts[j - 1] == Action.Next(g) then 1 else 0)
  }

  lemma HandleStaysOpen(s: Rcu, a: Action, g: Ptr)
    requires Enabled(s, a) && g in s.views && g in s.z.guards && HandleOk(s, g) && s.views[g].walk.Walk?
    requires a != Begin(g) && a != Action.Next(g) && a != Close(g)
    ensures g in Do(s, a).views && Do(s, a).views[g].walk == s.views[g].walk
  {
    if a.Step? { StepStaysOpen(s, a.g, a.weak, g); }
  }

  lemma StepStaysOpen(s: Rcu, h: Ptr, weak: bool, g: Ptr)
    requires Enabled(s, Step(h, weak)) && g in s.views && g in s.z.guards && (g == h ==> !s.z.guards[g].pc.Clear?)
    ensures g in Do(s, Step(h, weak)).views && Do(s, Step(h, weak)).views[g] == s.views[g]
  {
  }

  /** A pass has visited one node for its begin() and one for every ++, except that the
      last one led to the end. */
  lemma {:induction false} PassIs(tr: seq<Rcu>, acts: seq<Action>, i: nat, j: nat, g: Ptr)
    requires Performs(tr, acts) && i < j <= |acts| && InPass(acts, i, j, g)
    ensures PassSince(tr, i, j, g)
    ensures var w := tr[j].views[g].walk; |w.visited| + (if w.cur == 0 then 1 else 0) == 1 + Nexts(acts, i + 1, j, g)
    decreases j
  {
    PerformsIsRun(tr, acts);
    if j == i + 1 {
      BeginStep(tr, acts, i, g);
      RunInv(tr, i);
      if tr[i].l.list != [] { assert IsLinked(tr[i].l, tr[i].l.list[0]); }
    } else {
      PassIs(tr, acts, i, j - 1, g);
      if acts[j - 1] == Action.Next(g) {
        NextStep(tr, acts, j - 1, g);
      } else {
        RunInv(tr, j - 1);
        assert ActsAt(tr, acts, j - 1);
        assert HandleOk(tr[j - 1], g);
        HandleStaysOpen(tr[j - 1], acts[j - 1], g);
      }
    }
  }

  /** The nodes that were in the list at some time from state i to state j. */
  function ListedIn(tr: seq<Rcu>, i: nat, j: nat): set<Ptr>
    requires i <= j < |tr|
    decreases j
  {
    (set x | x in tr[j].l.list) + if i == j then {} else ListedIn(tr, i, j - 1)
  }

  lemma {:induction false} ListedInHas(tr: seq<Rcu>, i: nat, k: nat, j: nat, x: Ptr)
    requires i <= k <= j < |tr| && x in tr[k].l.list
    ensures x in ListedIn(tr, i, j)
    decreases j
  {
    if k < j { ListedInHas(tr, i, k, j - 1, x); }
  }

  lemma {:induction false} DistinctFits(q: seq<Ptr>, s: set<Ptr>)
    requires (forall i, j :: 0 <= i < j < |q| ==> q[i] != q[j]) && forall x :: x in q ==> x in s
    ensures |q| <= |s|
  {
    if q != [] {
      var last := q[|q| - 1];
      DistinctFits(q[..|q| - 1], s - {last});
    }
  }

  /** Every pass ends: it uses ++ at most as often as there were nodes in the list at
      any time since it began, and the last of that many leads to the end. */
  lemma PassEnds(tr: seq<Rcu>, acts: seq<Action>, i: nat, j: nat, g: Ptr)
    requires Performs(tr, acts) && i < j <= |acts| && InPass(acts, i, j, g)
    ensures Nexts(acts, i + 1, j, g) <= |ListedIn(tr, i, j)|
    ensures g in tr[j].views && tr[j].views[g].walk.Walk?
    ensures Nexts(acts, i + 1, j, g) == |ListedIn(tr, i, j)| ==> tr[j].views[g].walk.cur == 0
  {
    PerformsIsRun(tr, acts);
    PassIs(tr, acts, i, j, g);
    var v := tr[j].views[g].walk.visited;
    forall m, n | 0 <= m < n < |v| ensures v[m] != v[n] { NeverRevisits(tr, j, g, m, n); }
    forall x | x in v ensures x in ListedIn(tr, i, j) {
      var n :| 0 <= n < |v| && v[n] == x;
      var k := VisitsOnlyListed(tr, i, j, g, n);
      ListedInHas(tr, i, k, j, x);
    }
    DistinctFits(v, ListedIn(tr, i, j));
  }

  // -------------------------------------------------------------- handles

  /** No writer but g may use its handle. */
  ghost predicate OnlyWriter(s: Rcu, g: Ptr) {
    forall h :: h in s.views && s.views[h].writer && Usable(s, h) ==> h == g
  }

  /** Opening registers a guard that has obtained nothing; the mutex goes to the writer
      that asks for it when it is free, which may then work on the list as the only
      writer; any other iterator steps along next; closing lets go of all of it. */
  lemma HandleSteps(tr: seq<Rcu>, acts: seq<Action>, i: nat)
    requires Performs(tr, acts) && i < |acts|
    ensures acts[i].Open? ==>
              && acts[i].g in tr[i + 1].views && acts[i].g in tr[i + 1].z.guards
              && tr[i + 1].views[acts[i].g] == View(acts[i].writer, {}, NoWalk)
    ensures acts[i].Acquire? ==>
              Usable(tr[i + 1], acts[i].g) && OnlyWriter(tr[i + 1], acts[i].g)
    ensures acts[i].Peek? ==>
              && acts[i].p in tr[i].l.nodes && acts[i].g in tr[i + 1].views
              && (tr[i].l.nodes[acts[i].p].next != 0 ==> tr[i].l.nodes[acts[i].p].next in tr[i + 1].views[acts[i].g].held)
    ensures acts[i].Close? ==>
              && acts[i].g in tr[i + 1].views && tr[i + 1].views[acts[i].g].held == {} && !Usable(tr[i + 1], acts[i].g)
              && (if acts[i].g == tr[i].mutex then tr[i + 1].mutex == 0 else tr[i + 1].mutex == tr[i].mutex)
  {
    PerformsIsRun(tr, acts);
    RunInv(tr, i);
    assert ActsAt(tr, acts, i);
    StepHandle(tr[i], acts[i]);
  }

  lemma StepHandle(s: Rcu, a: Action)
    requires RcuMachine.Inv(s) && Enabled(s, a)
    ensures a.Open? ==>
              a.g in Do(s, a).views && a.g in Do(s, a).z.guards && Do(s, a).views[a.g] == View(a.writer, {}, NoWalk)
    ensures a.Acquire? ==>
              Usable(Do(s, a), a.g) && OnlyWriter(Do(s, a), a.g)
    ensures a.Peek? ==>
              && a.p in s.l.nodes && a.g in Do(s, a).views
              && (s.l.nodes[a.p].next != 0 ==> s.l.nodes[a.p].next in Do(s, a).views[a.g].held)
    ensures a.Close? ==>
              && a.g in Do(s, a).views && Do(s, a).views[a.g].held == {} && !Usable(Do(s, a), a.g)
              && (if a.g == s.mutex then Do(s, a).mutex == 0 else Do(s, a).mutex == s.mutex)
  {
    match a
    case Peek(g, _) => UsableView(s, g);
    case Close(g) => CloseHandle(s, g);
    case _ =>
  }

  lemma CloseHandle(s: Rcu, g: Ptr)
    requires MutexOk(s) && Enabled(s, Close(g))
    ensures g in Do(s, Close(g)).views && Do(s, Close(g)).views[g].held == {} && !Usable(Do(s, Close(g)), g)
    ensures if g == s.mutex then Do(s, Close(g)).mutex == 0 else Do(s, Close(g)).mutex == s.mutex
  {
  }

  /** Readers wait for nobody: in every reachable state, also in the middle of an
      operation of the writer, a handle for reading whose guard is on the stack may begin
      a pass, step on from every node it has obtained, also an erased one, and close; and
      a writer that has the mutex and no operation under way may push and erase. */
  lemma NeverBlocked(tr: seq<Rcu>, i: nat, g: Ptr)
    requires IsRun(tr) && i < |tr| && g in tr[i].views && g in tr[i].z.guards && tr[i].z.guards[g].pc.Holding?
    requires tr[i].views[g].writer ==> tr[i].mutex == g && tr[i].op.Idle?
    ensures Enabled(tr[i], Begin(g)) && Enabled(tr[i], Close(g))
    ensures tr[i].views[g].walk.Walk? && tr[i].views[g].walk.cur != 0 ==> Enabled(tr[i], Action.Next(g))
    ensures forall p :: p in tr[i].views[g].held ==> Enabled(tr[i], Peek(g, p))
    ensures tr[i].views[g].writer ==>
              && (forall c :: c in tr[i].views[g].held ==> Enabled(tr[i], StartErase(g, c)))
              && forall n, front :: n != 0 && n !in tr[i].l.nodes ==> Enabled(tr[i], StartPush(g, n, front))
  {
  }
}
