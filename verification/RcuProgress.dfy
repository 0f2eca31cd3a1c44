/** Nothing on an rcu_list waits for ever on another thread's steps, except a writer for
    the mutex: a guard that steps alone gets through its lock, its push or its unlock,
    and a writer that steps alone gets through its push or erase. */
module RcuProgress {
  import opened ZombieStack
  import opened RcuLinks
  import opened RcuMachine
  import opened RcuTheorems

  // -------------------------------------------------------------- guards

  /** How many steps guard g still has to take, at most, if no other guard steps. An
      exchange that is bound to fail comes back with the current head. */
  function Remaining(m: Memory, pc: Pc): int {
    var whole := |m.log|;
    match pc
    case LockLoad => 3
    case LockStore(prior) => if prior == m.head then 2 else 4
    case LockCas(prior) => if prior == m.head then 1 else 3
    case Holding => 0
    case PushLoad(_) => 3
    case PushStore(_, prior) => if prior == m.head then 2 else 4
    case PushCas(_, prior) => if prior == m.head then 1 else 3
    case UnlockLoad => 6 * whole + 8
    case ScanOwner(_, n) => 4 * whole + 4 + (if n in m.entries then 2 * (m.entries[n].stamp + 1) else 0)
    case ScanNext(_, n) => 4 * whole + 3 + (if n in m.entries then 2 * (m.entries[n].stamp + 1) else 0)
    case ReapRead(_) => 4 * (m.hi - m.lo) + 2
    case ReapNode(_, _) => 4 * (m.hi - m.lo) + 1
    case ReapNext(_) => 4 * (m.hi - m.lo)
    case ReapFree(_, _) => 4 * (m.hi - m.lo) - 1
    case Clear(_) => 1
  }

  /** The guard is through, or one step closer. */
  ghost predicate Closer(s: Stack, t: Stack, g: Ptr)
    requires g in s.guards
  {
    g !in t.guards || (0 <= Remaining(t.m, t.guards[g].pc) < Remaining(s.m, s.guards[g].pc))
  }

  lemma LockCloser(s: Stack, g: Ptr)
    requires Shape(s.m) && g in s.guards && GuardOk(s.m, g, s.guards[g]) && s.guards[g].pc.Locking()
    ensures Closer(s, Advance(s, g, false), g)
  {
  }

  lemma PushCloser(s: Stack, g: Ptr)
    requires Shape(s.m) && g in s.guards && GuardOk(s.m, g, s.guards[g]) && s.guards[g].pc.Pushing()
    ensures Closer(s, Advance(s, g, false), g)
  {
  }

  lemma UnlockCloser(s: Stack, g: Ptr)
    requires Shape(s.m) && ChainOk(s.m) && g in s.guards && GuardOk(s.m, g, s.guards[g]) && s.guards[g].pc.UnlockLoad?
    ensures Closer(s, Advance(s, g, false), g)
  {
    var m := s.m;
    var k := m.entries[s.guards[g].entry].stamp;
    assert m.Live(k) && NextOk(m, k);
    if k > m.floor { assert m.Live(k - 1); }
    LoadCloser(s, g);
  }

  lemma LoadCloser(s: Stack, g: Ptr)
    requires g in s.guards && s.guards[g].pc.UnlockLoad? && s.guards[g].entry in s.m.entries
    requires var n := s.m.entries[s.guards[g].entry].next; n in s.m.entries ==> 0 <= s.m.entries[n].stamp < |s.m.log|
    ensures Closer(s, Advance(s, g, false), g)
  {
  }

  lemma ScanNextCloser(s: Stack, g: Ptr)
    requires Shape(s.m) && ChainOk(s.m) && g in s.guards && GuardOk(s.m, g, s.guards[g]) && s.guards[g].pc.ScanNext?
    requires s.m.reaper == 0 || s.m.entries[s.guards[g].pc.n].stamp > s.m.floor
    ensures Closer(s, Advance(s, g, false), g)
  {
    var m, n := s.m, s.guards[g].pc.n;
    var j := m.entries[n].stamp;
    assert m.Live(j) && NextOk(m, j);
    if j > m.floor { assert m.Live(j - 1); }
  }

  lemma ScanOwnerCloser(s: Stack, g: Ptr)
    requires Shape(s.m) && ChainOk(s.m) && g in s.guards && GuardOk(s.m, g, s.guards[g]) && s.guards[g].pc.ScanOwner?
    ensures Closer(s, Advance(s, g, false), g)
  {
  }

  /** A scan that stands on the floor met no reaper. */
  lemma ScanFloor(s: Stack, g: Ptr)
    requires Shape(s.m) && ChainOk(s.m) && g in s.guards && GuardOk(s.m, g, s.guards[g]) && s.guards[g].pc.ScanNext?
    ensures s.m.reaper == 0 || s.m.entries[s.guards[g].pc.n].stamp > s.m.floor
  {
    assert s.m.Live(s.m.entries[s.guards[g].pc.n].stamp);
  }

  lemma ReapReadCloser(s: Stack, g: Ptr)
    requires Shape(s.m) && g in s.guards && GuardOk(s.m, g, s.guards[g]) && s.guards[g].pc.ReapRead?
    ensures Closer(s, Advance(s, g, false), g)
  {
  }

  lemma ReapStepCloser(s: Stack, g: Ptr)
    requires Shape(s.m) && g in s.guards && GuardOk(s.m, g, s.guards[g])
    requires s.guards[g].pc.ReapNode? || s.guards[g].pc.ReapNext? || s.guards[g].pc.Clear?
    ensures Closer(s, Advance(s, g, false), g)
  {
    if !s.guards[g].pc.Clear? { assert s.m.Live(s.m.hi - 1); }
  }

  lemma ReapFreeCloser(s: Stack, g: Ptr)
    requires Shape(s.m) && g in s.guards && GuardOk(s.m, g, s.guards[g]) && s.guards[g].pc.ReapFree?
    ensures Closer(s, Advance(s, g, false), g)
  {
    assert s.m.Live(s.m.hi - 1);
    ReapFreeStep(s, g, false);
  }

  lemma ReapCloser(s: Stack, g: Ptr)
    requires Shape(s.m) && g in s.guards && GuardOk(s.m, g, s.guards[g])
    requires s.guards[g].pc.Reaping() || s.guards[g].pc.Clear?
    ensures Closer(s, Advance(s, g, false), g)
  {
    if s.guards[g].pc.ReapRead? { ReapReadCloser(s, g); }
    else if s.guards[g].pc.ReapFree? { ReapFreeCloser(s, g); }
    else { ReapStepCloser(s, g); }
  }

  lemma AdvanceCloser(s: Stack, g: Ptr)
    requires ZombieStack.Inv(s) && g in s.guards && !s.guards[g].pc.Holding?
    ensures Closer(s, Advance(s, g, false), g)
  {
    var pc := s.guards[g].pc;
    assert GuardOk(s.m, g, s.guards[g]);
    if pc.Locking() { LockCloser(s, g); }
    else if pc.Pushing() { PushCloser(s, g); }
    else if pc.Reaping() || pc.Clear? { ReapCloser(s, g); }
    else if pc.UnlockLoad? { UnlockCloser(s, g); }
    else if pc.ScanOwner? { ScanOwnerCloser(s, g); }
    else {
      ScanFloor(s, g);
      ScanNextCloser(s, g);
    }
  }

  /** One step of g, if it has one to take, which is what Step(g, false) does to the
      stack; and n steps. */
  function AloneOnce(s: Stack, g: Ptr): Stack {
    if g in s.guards && !s.guards[g].pc.Holding? then Advance(s, g, false) else s
  }

  function Alone(s: Stack, g: Ptr, n: nat): Stack {
    if n == 0 then s else AloneOnce(Alone(s, g, n - 1), g)
  }

  /** Which phases a step leads to: locking and pushing end with the guard in place,
      unlocking with the guard gone. */
  lemma Phases(s: Stack, g: Ptr)
    requires ZombieStack.Inv(s) && g in s.guards && !s.guards[g].pc.Holding?
    ensures var t := Advance(s, g, false);
            if s.guards[g].pc.Locking() || s.guards[g].pc.Pushing() then g in t.guards && !Unlocking(t.guards[g].pc)
            else g in t.guards ==> Unlocking(t.guards[g].pc)
  {
    assert GuardOk(s.m, g, s.guards[g]);
    if s.guards[g].pc.Locking() { AdvanceLocking(s, g, false); }
    else if s.guards[g].pc.Pushing() { AdvancePushing(s, g, false); }
    else { AdvanceUnlocking(s, g, false); }
  }

  lemma StepCloser(s: Rcu, g: Ptr)
    requires RcuMachine.Inv(s) && Enabled(s, Step(g, false))
    ensures RcuMachine.Inv(Do(s, Step(g, false))) && Closer(s.z, Do(s, Step(g, false)).z, g)
    ensures var t := Do(s, Step(g, false)).z;
            if Unlocking(s.z.guards[g].pc) then g in t.guards ==> Unlocking(t.guards[g].pc)
            else g in t.guards && !Unlocking(t.guards[g].pc)
    ensures g in Do(s, Step(g, false)).z.guards ==> g in Do(s, Step(g, false)).views
  {
    DoInv(s, Step(g, false));
    StepIsAdvance(s, Step(g, false));
    AdvanceCloser(s.z, g);
    Phases(s.z, g);
  }

  /** Where g stands when it is through. */
  ghost predicate Through(pc: Pc, t: Stack, g: Ptr) {
    if Unlocking(pc) then g !in t.guards else g in t.guards && t.guards[g].pc.Holding?
  }

  lemma PositiveWork(s: Stack, g: Ptr)
    requires ZombieStack.Inv(s) && g in s.guards && !s.guards[g].pc.Holding?
    ensures Remaining(s.m, s.guards[g].pc) >= 1
  {
    assert GuardOk(s.m, g, s.guards[g]);
  }

  /** g, which once stood at pc, is through or needs at most so many steps. */
  ghost predicate Needs(pc: Pc, s: Stack, g: Ptr, bound: int) {
    || Through(pc, s, g)
    || (g in s.guards && !s.guards[g].pc.Holding? && (Unlocking(pc) <==> Unlocking(s.guards[g].pc))
        && 1 <= Remaining(s.m, s.guards[g].pc) <= bound)
  }

  lemma NeedsLess(pc: Pc, s: Stack, g: Ptr, bound: int)
    requires ZombieStack.Inv(s) && Needs(pc, s, g, bound)
    ensures ZombieStack.Inv(AloneOnce(s, g)) && Needs(pc, AloneOnce(s, g), g, bound - 1)
  {
    if g in s.guards && !s.guards[g].pc.Holding? {
      AdvanceInv(s, g, false);
      AdvanceNeeds(pc, s, g, bound);
    }
  }

  lemma AdvanceNeeds(pc: Pc, s: Stack, g: Ptr, bound: int)
    requires ZombieStack.Inv(s) && Needs(pc, s, g, bound) && g in s.guards && !s.guards[g].pc.Holding?
    requires ZombieStack.Inv(Advance(s, g, false))
    ensures Needs(pc, Advance(s, g, false), g, bound - 1)
  {
    AdvanceCloser(s, g);
    Phases(s, g);
    StillWorks(Advance(s, g, false), g);
  }

  lemma StillWorks(t: Stack, g: Ptr)
    requires ZombieStack.Inv(t)
    ensures g in t.guards && !t.guards[g].pc.Holding? ==> Remaining(t.m, t.guards[g].pc) >= 1
  {
    if g in t.guards && !t.guards[g].pc.Holding? { PositiveWork(t, g); }
  }

  lemma {:induction false} NeedsAfter(pc: Pc, s: Stack, g: Ptr, bound: int, n: nat)
    requires ZombieStack.Inv(s) && Needs(pc, s, g, bound)
    ensures ZombieStack.Inv(Alone(s, g, n)) && Needs(pc, Alone(s, g, n), g, bound - n)
  {
    if n > 0 {
      NeedsAfter(pc, s, g, bound, n - 1);
      NeedsLess(pc, Alone(s, g, n - 1), g, bound - (n - 1));
    }
  }

  /** In every reachable state, a guard that steps alone has its lock or its push, or is
      gone, after at most 6 |log| + 8 steps, where log is all that was ever pushed. */
  lemma GuardGetsThrough(tr: seq<Rcu>, i: nat, g: Ptr)
    requires IsRun(tr) && i < |tr| && g in tr[i].z.guards
    ensures Through(tr[i].z.guards[g].pc, Alone(tr[i].z, g, 6 * |tr[i].z.m.log| + 8), g)
  {
    RunInv(tr, i);
    var bound := 6 * |tr[i].z.m.log| + 8;
    NeedsAtFirst(tr[i].z, g);
    NeedsAfter(tr[i].z.guards[g].pc, tr[i].z, g, bound, bound);
  }

  lemma NeedsAtFirst(s: Stack, g: Ptr)
    requires ZombieStack.Inv(s) && g in s.guards
    ensures Needs(s.guards[g].pc, s, g, 6 * |s.m.log| + 8)
  {
    RemainingBound(s, g);
    StillWorks(s, g);
  }

  lemma RemainingBound(s: Stack, g: Ptr)
    requires ZombieStack.Inv(s) && g in s.guards
    ensures Remaining(s.m, s.guards[g].pc) <= 6 * |s.m.log| + 8
  {
    assert GuardOk(s.m, g, s.guards[g]);
  }

  // -------------------------------------------------------------- the writer

  /** How many steps the writer still has to take in its operation, at most, if it
      steps alone. */
  function WriterLeft(s: Rcu): int {
    match s.op
    case Idle => 0
    case PbLoad(_) => 4
    case PbBack(_, _) => 3
    case PbNext(_, _) => 2
    case PbTail(_, _) => 1
    case PfLoad(_) => 4
    case PfNext(_, _) => 3
    case PfBack(_, _) => 2
    case PfHead(_, _) => 1
    case EmptyHead(_) => 2
    case EmptyTail(_) => 1
    case ErMark(_, _) => 9
    case ErBack(_, _) => 8
    case ErUnlink(_, _, _) => 7
    case ErRelink(_, _, _) => 6
    case ErAlloc(_) => 5
    case ErPush(_) => if s.mutex in s.z.guards then Remaining(s.z.m, s.z.guards[s.mutex].pc) else 0
  }

  /** The writer's next step, with e as the address of a zombie entry. */
  function WritersNext(s: Rcu, e: Ptr): Action {
    if s.op.ErAlloc? then AllocZombie(s.mutex, e)
    else if s.op.ErPush? then Step(s.mutex, false)
    else Mutate(s.mutex)
  }

  lemma MutateCloser(s: Rcu)
    requires Mutating(s.op) && s.mutex != 0 && !WriteOf(s).2
    ensures Enabled(s, Mutate(s.mutex)) && 0 <= WriterLeft(Do(s, Mutate(s.mutex))) < WriterLeft(s)
  {
  }

  function WriteOf(s: Rcu): (Links, Op, bool) {
    Write(s.l, s.op)
  }

  lemma MutateSafe(s: Rcu)
    requires RcuMachine.Inv(s) && Mutating(s.op)
    ensures s.mutex != 0 && !WriteOf(s).2
  {
    RetiredAreBelow(s);
    WriteInv(s.l, s.op, s.z.m.floor, |s.z.m.log|);
  }

  lemma AllocCloser(s: Rcu, e: Ptr)
    requires MutexOk(s) && HandlesOk(s) && s.op.ErAlloc? && e != 0 && e !in s.z.m.entries
    ensures Enabled(s, AllocZombie(s.mutex, e)) && 0 <= WriterLeft(Do(s, AllocZombie(s.mutex, e))) < WriterLeft(s)
  {
  }

  lemma PushedCloser(s: Rcu)
    requires RcuMachine.Inv(s) && s.op.ErPush?
    ensures Enabled(s, Step(s.mutex, false)) && 0 <= WriterLeft(Do(s, Step(s.mutex, false))) < WriterLeft(s)
  {
    WriterPushes(s);
    StepCloser(s, s.mutex);
    PushKeepsWriter(s);
    PushedLeft(s, Do(s, Step(s.mutex, false)));
  }

  lemma WriterPushes(s: Rcu)
    requires MutexOk(s) && s.op.ErPush?
    ensures Enabled(s, Step(s.mutex, false)) && s.z.guards[s.mutex].pc.Pushing()
  {
  }

  lemma PushedLeft(s: Rcu, t: Rcu)
    requires s.op.ErPush? && t.mutex == s.mutex && (t.op == s.op || t.op.Idle?)
    requires s.mutex in s.z.guards && s.mutex in t.z.guards && Closer(s.z, t.z, s.mutex)
    ensures 0 <= WriterLeft(t) < WriterLeft(s)
  {
  }

  lemma PushKeepsWriter(s: Rcu)
    requires MutexOk(s) && s.op.ErPush? && Enabled(s, Step(s.mutex, false)) && s.z.guards[s.mutex].pc.Pushing()
    ensures var t := Do(s, Step(s.mutex, false)); t.mutex == s.mutex && (t.op == s.op || t.op.Idle?)
  {
  }

  lemma WriterCloser(s: Rcu, e: Ptr)
    requires RcuMachine.Inv(s) && !s.op.Idle? && e != 0 && e !in s.z.m.entries
    ensures Enabled(s, WritersNext(s, e)) && RcuMachine.Inv(Do(s, WritersNext(s, e)))
    ensures 0 <= WriterLeft(Do(s, WritersNext(s, e))) < WriterLeft(s)
    ensures Do(s, WritersNext(s, e)).mutex == s.mutex
  {
    if s.op.ErAlloc? { AllocCloser(s, e); }
    else if s.op.ErPush? { PushedCloser(s); }
    else {
      MutateSafe(s);
      MutateCloser(s);
    }
    DoInv(s, WritersNext(s, e));
  }

  lemma {:induction false} FreeAddress(used: set<Ptr>) returns (e: Ptr)
    ensures e != 0 && e !in used && forall u :: u in used ==> u < e
  {
    e := 1;
    if used != {} {
      var u :| u in used;
      e := FreeAddress(used - {u});
      if e <= u { e := u + 1; }
      forall x | x in used ensures x < e { assert x == u || x in used - {u}; }
    }
  }

  /** From s the actions lead to t. */
  ghost predicate Leads(s: Rcu, acts: seq<Action>, t: Rcu)
    decreases |acts|
  {
    if acts == [] then s == t else Enabled(s, acts[0]) && Leads(Do(s, acts[0]), acts[1..], t)
  }

  lemma {:induction false} FinishesAlone(s: Rcu) returns (acts: seq<Action>, t: Rcu)
    requires RcuMachine.Inv(s)
    ensures |acts| <= (if s.op.Idle? then 0 else WriterLeft(s)) && Leads(s, acts, t) && t.op.Idle?
    ensures forall k :: 0 <= k < |acts| ==> acts[k].g == s.mutex
    decreases if s.op.Idle? then 0 else WriterLeft(s) + 1
  {
    acts, t := [], s;
    if !s.op.Idle? {
      var e := FreeAddress(s.z.m.entries.Keys);
      WriterCloser(s, e);
      var a := WritersNext(s, e);
      var rest;
      rest, t := FinishesAlone(Do(s, a));
      acts := [a] + rest;
      LeadsOn(s, a, rest, t);
    }
  }

  lemma LeadsOn(s: Rcu, a: Action, rest: seq<Action>, t: Rcu)
    requires Enabled(s, a) && Leads(Do(s, a), rest, t)
    ensures Leads(s, [a] + rest, t)
  {
    assert ([a] + rest)[1..] == rest;
  }

  /** In every reachable state the operation under way, if any, is over after at most
      nine further steps of the writer. */
  lemma OperationFinishes(tr: seq<Rcu>, i: nat) returns (acts: seq<Action>, t: Rcu)
    requires IsRun(tr) && i < |tr|
    ensures |acts| <= 9 && Leads(tr[i], acts, t) && t.op.Idle?
    ensures forall k :: 0 <= k < |acts| ==> acts[k].g == tr[i].mutex
  {
    RunInv(tr, i);
    AtMostNine(tr[i]);
    acts, t := FinishesAlone(tr[i]);
  }

  lemma AtMostNine(s: Rcu)
    requires MutexOk(s)
    ensures WriterLeft(s) <= 9
  {
  }
}
