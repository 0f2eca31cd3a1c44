/** What the invariant of RcuMachine means for whole runs: every interleaving of
    any number of readers and writers, of any length. */
module RcuTheorems {
  import opened ZombieStack
  import opened RcuLinks
  import opened RcuMachine

  ghost predicate StepsTo(s: Rcu, t: Rcu) {
    exists a :: Enabled(s, a) && t == Do(s, a)
  }

  ghost predicate StepAt(tr: seq<Rcu>, i: int)
    requires 0 < i < |tr|
  {
    StepsTo(tr[i - 1], tr[i])
  }

  /** tr[0], tr[1], ... are the successive states of an execution. */
  ghost predicate IsRun(tr: seq<Rcu>) {
    |tr| > 0 && tr[0] == Start && forall i {:trigger StepAt(tr, i)} :: 0 < i < |tr| ==> StepAt(tr, i)
  }

  lemma StartInv()
    ensures RcuMachine.Inv(Start)
  {
    assert forall i :: !Start.z.m.Live(i);
  }

  lemma {:induction false} RunInv(tr: seq<Rcu>, i: nat)
    requires IsRun(tr) && i < |tr|
    ensures RcuMachine.Inv(tr[i])
  {
    if i == 0 {
      StartInv();
    } else {
      RunInv(tr, i - 1);
      var a := ActionAt(tr, i);
      DoInv(tr[i - 1], a);
    }
  }

  lemma ActionAt(tr: seq<Rcu>, i: nat) returns (a: Action)
    requires IsRun(tr) && 0 < i < |tr|
    ensures Enabled(tr[i - 1], a) && tr[i] == Do(tr[i - 1], a)
  {
    assert StepAt(tr, i);
    a :| Enabled(tr[i - 1], a) && tr[i] == Do(tr[i - 1], a);
  }

  /** No step of any run touches, or frees again, a data node or a zombie entry
      that has been freed, and every node a handle ever obtained is live while
      the handle is in use. */
  lemma ReclamationSafety(tr: seq<Rcu>, i: nat)
    requires IsRun(tr) && i < |tr|
    ensures !tr[i].bad && !tr[i].z.bad
    ensures forall g, p :: g in tr[i].views && p in tr[i].views[g].held ==> p in tr[i].l.nodes
  {
    RunInv(tr, i);
    forall g, p | g in tr[i].views && p in tr[i].views[g].held ensures p in tr[i].l.nodes {
      assert HandleOk(tr[i], g);
    }
  }

  /** A node obtained through a guard that also has a zombie entry has it above
      the guard's own entry, so no older guard's and no equal guard's unlock frees it. */
  lemma HeldAbove(tr: seq<Rcu>, i: nat, g: Ptr, k: int)
    requires IsRun(tr) && i < |tr| && g in tr[i].views
    requires HeldNode(tr[i].z, k) != 0 && HeldNode(tr[i].z, k) in tr[i].views[g].held
    ensures k > Position(tr[i].z, g) >= tr[i].z.m.floor
  {
    RunInv(tr, i);
    var s := tr[i];
    assert HandleOk(s, g) && GuardOk(s.z.m, g, s.z.guards[g]);
    assert s.l.nodes[HeldNode(s.z, k)].status == Retired(k);
    PositionLive(s.z, g);
  }

  // --------------------------------------------------------- the zombie stack

  lemma RunStack(tr: seq<Rcu>, i: nat)
    requires IsRun(tr) && i < |tr|
    ensures ZombieStack.Inv(tr[i].z)
  {
    RunInv(tr, i);
  }

  /** At most one guard reclaims at any time, and it is the oldest on the stack. */
  lemma ExclusiveReaper(tr: seq<Rcu>, i: nat, g: Ptr, h: Ptr)
    requires IsRun(tr) && i < |tr| && g in tr[i].z.guards && h in tr[i].z.guards
    requires tr[i].z.guards[g].pc.Reaping()
    ensures tr[i].z.guards[h].pc.Reaping() ==> h == g
    ensures !tr[i].z.guards[h].pc.Locking() ==> Position(tr[i].z, g) <= Position(tr[i].z, h)
  {
    RunInv(tr, i);
    assert GuardOk(tr[i].z.m, g, tr[i].z.guards[g]) && GuardOk(tr[i].z.m, h, tr[i].z.guards[h]);
  }

  /** No scan stands inside the segment that a reaper is freeing. */
  lemma ScanOutsideSegment(tr: seq<Rcu>, i: nat, h: Ptr, j: int)
    requires IsRun(tr) && i < |tr| && h in tr[i].z.guards
    requires tr[i].z.guards[h].pc.ScanOwner? || tr[i].z.guards[h].pc.ScanNext?
    requires tr[i].z.m.lo <= j < tr[i].z.m.hi
    ensures j < |tr[i].z.m.log| && tr[i].z.m.log[j] in tr[i].z.m.entries
    ensures tr[i].z.m.log[j] != tr[i].z.guards[h].pc.n
  {
    RunStack(tr, i);
    var m := tr[i].z.m;
    assert GuardOk(m, h, tr[i].z.guards[h]);
    assert m.Live(j) && m.entries[m.log[j]].stamp == j;
  }

  /** What a scan from p reads when it follows n next fields through memory. */
  function ReadChain(entries: map<Ptr, Entry>, p: Ptr, n: nat): seq<Ptr>
    decreases n
  {
    if n == 0 || p == 0 || p !in entries then [] else [p] + ReadChain(entries, entries[p].next, n - 1)
  }

  /** The entries of the log from position k down to the floor. */
  function Down(m: Memory, k: int): seq<Ptr>
    requires k < |m.log|
    decreases k - m.floor + 1
  {
    if k < m.floor then [] else [m.log[k]] + Down(m, k - 1)
  }

  lemma ChainLink(m: Memory, k: int)
    requires Shape(m) && ChainOk(m) && m.floor < k < |m.log|
    ensures m.log[k] in m.entries && m.log[k] != 0 && m.entries[m.log[k]].next == m.log[k - 1]
  {
    assert m.Live(k) && m.log[k] in m.entries && NextOk(m, k);
  }

  /** Reading down to the floor; and reading on finds nothing more, unless a reaper
      has cut the chain there and not yet stored the null. */
  lemma {:induction false} ReadChainDown(m: Memory, k: int, n: nat)
    requires Shape(m) && ChainOk(m) && m.floor <= k < |m.log|
    requires n == k + 1 - m.floor || (n > k + 1 - m.floor && m.reaper == 0)
    ensures ReadChain(m.entries, m.log[k], n) == Down(m, k)
    decreases k
  {
    if k > m.floor {
      ChainLink(m, k);
      ReadChainDown(m, k - 1, n - 1);
    } else {
      assert m.Live(k) && m.log[k] in m.entries && NextOk(m, k);
    }
  }

  lemma {:induction false} DownPublish(m: Memory, e: Ptr, k: int)
    requires k < |m.log| && e in m.entries
    ensures Down(m.Publish(e), k) == Down(m, k)
    decreases k - m.floor + 1
  {
    if k >= m.floor { DownPublish(m, e, k - 1); }
  }

  lemma {:induction false} DownLength(m: Memory, k: int)
    requires m.floor - 1 <= k < |m.log|
    ensures |Down(m, k)| == k + 1 - m.floor
    ensures forall i :: 0 <= i < |Down(m, k)| ==> Down(m, k)[i] == m.log[k - i]
    decreases k
  {
    if k >= m.floor { DownLength(m, k - 1); }
  }

  /** The stack as memory has it now, newest entry first. */
  ghost function Chain(m: Memory): seq<Ptr>
    requires Shape(m)
  {
    ReadChain(m.entries, m.head, |m.log| - m.floor)
  }

  lemma ChainIsDown(m: Memory)
    requires Shape(m) && ChainOk(m)
    ensures Chain(m) == Down(m, |m.log| - 1) && |Chain(m)| == |m.log| - m.floor
    ensures forall i, j :: 0 <= i < j < |Chain(m)| ==> Chain(m)[i] != Chain(m)[j]
  {
    if |m.log| > 0 { ReadChainDown(m, |m.log| - 1, |m.log| - m.floor); }
    DownLength(m, |m.log| - 1);
    var c := Chain(m);
    forall i, j | 0 <= i < j < |c| ensures c[i] != c[j] {
      assert m.Live(|m.log| - 1 - i) && m.Live(|m.log| - 1 - j);
      assert m.entries[c[i]].stamp == |m.log| - 1 - i && m.entries[c[j]].stamp == |m.log| - 1 - j;
    }
  }

  /** Unless a guard is just reclaiming, the chain ends there, however far one reads. */
  lemma ChainEnds(m: Memory, n: nat)
    requires Shape(m) && ChainOk(m) && m.reaper == 0 && n >= |m.log| - m.floor
    ensures ReadChain(m.entries, m.head, n) == Chain(m)
  {
    ChainIsDown(m);
    if |m.log| > 0 { ReadChainDown(m, |m.log| - 1, n); }
  }

  /** In every reachable state m_zombie_head leads through each entry that was
      published and not cut off, newest first, each once, and then to null. */
  lemma ChainIsStack(tr: seq<Rcu>, i: nat, n: nat)
    requires IsRun(tr) && i < |tr| && (tr[i].z.m.reaper == 0 ==> n >= |tr[i].z.m.log| - tr[i].z.m.floor)
    requires tr[i].z.m.reaper != 0 ==> n == |tr[i].z.m.log| - tr[i].z.m.floor
    ensures var m := tr[i].z.m; var c := ReadChain(m.entries, m.head, n);
            && |c| == |m.log| - m.floor
            && (forall k :: 0 <= k < |c| ==> c[k] == m.log[|m.log| - 1 - k])
            && (forall k, l :: 0 <= k < l < |c| ==> c[k] != c[l])
  {
    RunStack(tr, i);
    var m := tr[i].z.m;
    if m.reaper == 0 { ChainEnds(m, n); }
    ChainIsDown(m);
    DownLength(m, |m.log| - 1);
  }

  /** However long ago the pusher loaded the head, and whatever was freed and
      allocated again since: a successful exchange leaves the new entry on top of
      the chain as it stood at that instant. */
  lemma ReuseIsHarmless(tr: seq<Rcu>, i: nat, g: Ptr)
    requires IsRun(tr) && i < |tr| && g in tr[i].z.guards
    requires (tr[i].z.guards[g].pc.LockCas? || tr[i].z.guards[g].pc.PushCas?) && tr[i].z.guards[g].pc.prior == tr[i].z.m.head
    ensures var m, t, z := tr[i].z.m, Advance(tr[i].z, g, false).m, tr[i].z.guards[g].Unpublished();
            && Shape(m) && Shape(t) && z !in Chain(m) && Chain(t) == [z] + Chain(m)
            && |Chain(t)| == |t.log| - t.floor
  {
    RunStack(tr, i);
    PublishesOnTop(tr[i].z, g);
  }

  lemma PublishesOnTop(s: Stack, g: Ptr)
    requires ZombieStack.Inv(s) && g in s.guards
    requires (s.guards[g].pc.LockCas? || s.guards[g].pc.PushCas?) && s.guards[g].pc.prior == s.m.head
    ensures var m, t, z := s.m, Advance(s, g, false).m, s.guards[g].Unpublished();
            && Shape(m) && Shape(t) && z !in Chain(m) && Chain(t) == [z] + Chain(m)
            && |Chain(t)| == |t.log| - t.floor
  {
    var m, z := s.m, s.guards[g].Unpublished();
    assert GuardOk(m, g, s.guards[g]);
    assert Advance(s, g, false).m == m.Publish(z);
    PublishOk(m, z);
    ChainPublish(m, z);
  }

  lemma ChainPublish(m: Memory, z: Ptr)
    requires Shape(m) && ChainOk(m) && z in m.entries && m.entries[z].stamp == -1
    requires Shape(m.Publish(z)) && ChainOk(m.Publish(z))
    ensures z !in Chain(m) && Chain(m.Publish(z)) == [z] + Chain(m)
    ensures |Chain(m.Publish(z))| == |m.Publish(z).log| - m.Publish(z).floor
  {
    ChainIsDown(m);
    ChainIsDown(m.Publish(z));
    DownPublish(m, z, |m.log| - 1);
    DownMembers(m, |m.log| - 1);
  }

  /** The chain holds published entries only. */
  lemma {:induction false} DownMembers(m: Memory, k: int)
    requires Shape(m) && k < |m.log|
    ensures forall e :: e in Down(m, k) ==> e in m.entries && m.entries[e].stamp != -1
    decreases k - m.floor + 1
  {
    if k >= m.floor {
      DownMembers(m, k - 1);
      assert m.Live(k) && m.log[k] in m.entries;
    }
  }

  // --------------------------------------------------------- bounded garbage

  /** g is registered and no registered guard is older. */
  ghost predicate Oldest(s: Stack, g: Ptr) {
    && g in s.guards && !s.guards[g].pc.Locking()
    && forall h :: h in s.guards && !s.guards[h].pc.Locking() ==> Position(s, g) <= Position(s, h)
  }

  /** The oldest guard's scan never meets an active one. */
  lemma OldestScans(s: Stack, g: Ptr, weak: bool)
    requires ZombieStack.Inv(s) && Oldest(s, g) && s.guards[g].pc != Clear(false)
    requires g in Advance(s, g, weak).guards
    ensures Advance(s, g, weak).guards[g].pc != Clear(false)
  {
    assert GuardOk(s.m, g, s.guards[g]);
    if s.guards[g].pc.ScanOwner? && s.guards[g].pc.n != 0 { ScanMeets(s, g); }
  }

  /** An owner that a scan meets is an active guard older than the scanning one. */
  lemma ScanMeets(s: Stack, g: Ptr)
    requires ZombieStack.Inv(s) && g in s.guards && s.guards[g].pc.ScanOwner? && s.guards[g].pc.n != 0
    ensures s.guards[g].pc.n in s.m.entries
    ensures var h := s.m.entries[s.guards[g].pc.n].owner;
            h != 0 ==> h in s.guards && !s.guards[h].pc.Locking() && Position(s, h) < Position(s, g)
  {
    assert GuardOk(s.m, g, s.guards[g]);
    var n := s.guards[g].pc.n;
    if s.m.entries[n].owner != 0 {
      assert EntryOk(s.m.entries[n], n, s.guards);
      assert GuardOk(s.m, s.m.entries[n].owner, s.guards[s.m.entries[n].owner]);
    }
  }

  lemma OldestStays(s: Stack, g: Ptr, h: Ptr, weak: bool)
    requires ZombieStack.Inv(s) && Oldest(s, g) && h in s.guards && g in Advance(s, h, weak).guards
    ensures Oldest(Advance(s, h, weak), g)
    ensures Position(Advance(s, h, weak), g) == Position(s, g)
  {
    var t := Advance(s, h, weak);
    AdvancePosition(s, h, weak, g);
    AdvanceInv(s, h, weak);
    if g == h { StaysRegistered(s, g, weak); } else { AdvanceOther(s, h, weak, g); }
    forall x | x in t.guards && !t.guards[x].pc.Locking() ensures Position(s, g) <= Position(t, x) {
      if x != h { AdvanceOther(s, h, weak, x); }
      NewPosition(s, h, weak, x);
      PositionLive(s, g);
    }
  }

  lemma StaysRegistered(s: Stack, g: Ptr, weak: bool)
    requires g in s.guards && !s.guards[g].pc.Locking() && g in Advance(s, g, weak).guards
    requires s.guards[g].pc.Pushing() ==> s.guards[g].pc.z in s.m.entries
    ensures !Advance(s, g, weak).guards[g].pc.Locking()
  {
    if s.guards[g].pc.Pushing() { AdvancePushing(s, g, weak); }
    else if Unlocking(s.guards[g].pc) { AdvanceUnlocking(s, g, weak); }
  }

  /** A guard that registers in a step gets the position on top. */
  lemma NewPosition(s: Stack, h: Ptr, weak: bool, x: Ptr)
    requires ZombieStack.Inv(s) && h in s.guards && x in s.guards && x in Advance(s, h, weak).guards
    requires !Advance(s, h, weak).guards[x].pc.Locking()
    ensures var t := Advance(s, h, weak);
            Position(t, x) == if s.guards[x].pc.Locking() then |s.m.log| else Position(s, x)
  {
    assert GuardOk(s.m, x, s.guards[x]);
    if !s.guards[x].pc.Locking() { AdvancePosition(s, h, weak, x); }
    else if x != h { AdvanceOther(s, h, weak, x); }
  }

  /** Memory grew and guard h at most left Holding: nobody's place changed. */
  lemma OldestElsewhere(s: Stack, t: Stack, g: Ptr)
    requires ZombieStack.Inv(s) && Oldest(s, g) && g in t.guards && t.guards[g].entry == s.guards[g].entry
    requires !t.guards[g].pc.Locking()
    requires forall e :: e in s.m.entries ==> e in t.m.entries && t.m.entries[e].stamp == s.m.entries[e].stamp
    requires forall h :: h in t.guards && !t.guards[h].pc.Locking() ==>
               h in s.guards && t.guards[h].entry == s.guards[h].entry && !s.guards[h].pc.Locking()
    ensures Oldest(t, g) && Position(t, g) == Position(s, g)
  {
    forall h | h in t.guards && !t.guards[h].pc.Locking() ensures Position(t, g) <= Position(t, h) {
      assert GuardOk(s.m, h, s.guards[h]) && GuardOk(s.m, g, s.guards[g]);
    }
    assert GuardOk(s.m, g, s.guards[g]);
  }

  lemma OldestOpen(s: Stack, g: Ptr, h: Ptr, e: Ptr)
    requires ZombieStack.Inv(s) && Oldest(s, g) && h !in s.guards && e !in s.m.entries
    ensures Oldest(ZombieStack.Open(s, h, e), g) && Position(ZombieStack.Open(s, h, e), g) == Position(s, g)
  {
    OldestElsewhere(s, ZombieStack.Open(s, h, e), g);
  }

  lemma OldestRetire(s: Stack, g: Ptr, h: Ptr, e: Ptr, node: Ptr)
    requires ZombieStack.Inv(s) && Oldest(s, g) && h in s.guards && !s.guards[h].pc.Locking() && e !in s.m.entries
    ensures Oldest(Retire(s, h, e, node), g) && Position(Retire(s, h, e, node), g) == Position(s, g)
  {
    OldestElsewhere(s, Retire(s, h, e, node), g);
  }

  lemma OldestClose(s: Stack, g: Ptr, h: Ptr)
    requires ZombieStack.Inv(s) && Oldest(s, g) && h in s.guards && s.guards[h].pc.Holding?
    ensures Oldest(Goto(s, s.m, h, UnlockLoad), g) && Position(Goto(s, s.m, h, UnlockLoad), g) == Position(s, g)
  {
    OldestElsewhere(s, Goto(s, s.m, h, UnlockLoad), g);
  }

  lemma StepIsAdvance(s: Rcu, a: Action)
    requires Enabled(s, a) && a.Step?
    ensures Do(s, a).z == Advance(s.z, a.g, a.weak)
  {
  }

  lemma OldestAdvance(s: Stack, g: Ptr, h: Ptr, weak: bool)
    requires ZombieStack.Inv(s) && Oldest(s, g) && h in s.guards && g in Advance(s, h, weak).guards
    requires s.guards[g].pc != Clear(false)
    ensures var t := Advance(s, h, weak); Oldest(t, g) && Position(t, g) == Position(s, g) && t.guards[g].pc != Clear(false)
  {
    OldestStays(s, g, h, weak);
    if h == g { OldestScans(s, g, weak); } else { AdvanceOther(s, h, weak, g); }
  }

  lemma OldestAlloc(s: Rcu, h: Ptr, e: Ptr, g: Ptr)
    requires RcuMachine.Inv(s) && Enabled(s, AllocZombie(h, e)) && Oldest(s.z, g) && s.z.guards[g].pc != Clear(false)
    ensures var t := Retire(s.z, h, e, s.op.c);
            g in t.guards && Oldest(t, g) && Position(t, g) == Position(s.z, g) && t.guards[g].pc != Clear(false)
  {
    assert HandleOk(s, h);
    OldestRetire(s.z, g, h, e, s.op.c);
  }

  /** g stays the oldest guard, and its unlock, once begun, will reclaim. */
  lemma OldestDo(s: Rcu, a: Action, g: Ptr)
    requires RcuMachine.Inv(s) && Enabled(s, a) && Oldest(s.z, g) && g in Do(s, a).z.guards
    requires s.z.guards[g].pc != Clear(false)
    ensures var t := Do(s, a).z; Oldest(t, g) && Position(t, g) == Position(s.z, g) && t.guards[g].pc != Clear(false)
  {
    match a
    case Open(h, e, _) => OldestOpen(s.z, g, h, e);
    case Step(h, weak) =>
      StepIsAdvance(s, a);
      OldestAdvance(s.z, g, h, weak);
    case AllocZombie(h, e) => OldestAlloc(s, h, e, g);
    case Close(h) => OldestClose(s.z, g, h);
    case _ =>
  }

  /** Guard g is present, without a break, from state i to state j. */
  ghost predicate Stays(tr: seq<Rcu>, i: nat, j: nat, g: Ptr)
    requires i <= j < |tr|
  {
    forall k {:trigger tr[k]} :: i <= k <= j ==> g in tr[k].z.guards
  }

  lemma OldestStep(tr: seq<Rcu>, j: nat, g: Ptr)
    requires IsRun(tr) && 0 < j < |tr| && g in tr[j].z.guards
    requires Oldest(tr[j - 1].z, g) && tr[j - 1].z.guards[g].pc != Clear(false)
    ensures Oldest(tr[j].z, g) && Position(tr[j].z, g) == Position(tr[j - 1].z, g) && tr[j].z.guards[g].pc != Clear(false)
  {
    RunInv(tr, j - 1);
    var a := ActionAt(tr, j);
    OldestDo(tr[j - 1], a, g);
  }

  lemma {:induction false} OldestRun(tr: seq<Rcu>, i: nat, j: nat, g: Ptr)
    requires IsRun(tr) && i <= j < |tr| && Stays(tr, i, j, g)
    requires Oldest(tr[i].z, g) && tr[i].z.guards[g].pc != Clear(false)
    ensures Oldest(tr[j].z, g) && Position(tr[j].z, g) == Position(tr[i].z, g) && tr[j].z.guards[g].pc != Clear(false)
    decreases j - i
  {
    if i < j {
      OldestRun(tr, i, j - 1, g);
      OldestStep(tr, j, g);
    }
  }

  /** A guard that was ever the oldest while its unlock had not yet failed has,
      when it is about to clear its owner, freed every entry older than its own:
      the chain is what was pushed since it registered.  Under last-in first-out
      release this is what every outermost guard achieves. */
  lemma BoundedGarbage(tr: seq<Rcu>, i: nat, j: nat, g: Ptr)
    requires IsRun(tr) && i <= j < |tr| && Stays(tr, i, j, g)
    requires Oldest(tr[i].z, g) && tr[i].z.guards[g].pc != Clear(false)
    requires tr[j].z.guards[g].pc.Clear?
    ensures Shape(tr[j].z.m) && |Chain(tr[j].z.m)| == |tr[j].z.m.log| - Position(tr[i].z, g)
    ensures forall k :: tr[j].z.m.Live(k) ==> k >= Position(tr[i].z, g)
    ensures forall e :: e in tr[j].z.m.entries && tr[j].z.m.entries[e].stamp != -1 ==>
              tr[j].z.m.entries[e].stamp >= Position(tr[i].z, g)
  {
    OldestRun(tr, i, j, g);
    RunStack(tr, j);
    var s := tr[j].z;
    assert GuardOk(s.m, g, s.guards[g]);
    ChainIsDown(s.m);
    if s.m.reaper != 0 { ReaperIs(s); }
  }
}
