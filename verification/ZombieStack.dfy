/** The push-only stack of guard and zombie entries (m_zombie_head) and the
    reclamation that an unlocking guard performs on it, as a transition system
    with one step per atomic load, store or compare-exchange.

    Memory is a map from addresses to live entries: allocation may return any
    address that is not live, so the address of a freed entry may come back at
    once.  A step that touches a dead address sets `bad`.

    `stamp`, `maker`, `log`, `floor`, `lo`, `hi` and `reaper` are history
    variables: no step reads them to decide what the program does; a step that
    would contradict them sets `bad` as well. */
module ZombieStack {

  /** An address; 0 is nullptr.  Guards are named by their address as well. */
  type Ptr = nat

  /** zombie_list_node.  `stamp` is the entry's position in `log`, -1 before it
      is published; `maker` is the guard that allocated it. */
  datatype Entry = Entry(next: Ptr, owner: Ptr, node: Ptr, stamp: int, maker: Ptr)

  /** Where a guard stands.  The Lock steps are rcu_read_lock, the Push steps
      are the end of erase, the others are unlock. */
  datatype Pc =
    | LockLoad
    | LockStore(prior: Ptr)
    | LockCas(prior: Ptr)
    | Holding
    | PushLoad(z: Ptr)
    | PushStore(z: Ptr, prior: Ptr)
    | PushCas(z: Ptr, prior: Ptr)
    | UnlockLoad
    | ScanOwner(cached: Ptr, n: Ptr)
    | ScanNext(cached: Ptr, n: Ptr)
    | ReapRead(n: Ptr)
    | ReapNode(n: Ptr, dead: Ptr)
    | ReapNext(n: Ptr)
    | ReapFree(n: Ptr, rest: Ptr)
    | Clear(last: bool)
  {
    predicate Locking() { LockLoad? || LockStore? || LockCas? }
    predicate Pushing() { PushLoad? || PushStore? || PushCas? }
    predicate Reaping() { ReapRead? || ReapNode? || ReapNext? || ReapFree? }
  }

  datatype Guard = Guard(entry: Ptr, pc: Pc)
  {
    /** The entry this guard has allocated and not yet published, or 0. */
    function Unpublished(): Ptr {
      if pc.Locking() then entry else if pc.Pushing() then pc.z else 0
    }
  }

  /** The shared memory.  `log` lists every entry ever published, oldest first.
      Those at positions from `floor` on form the stack; those from `lo` to `hi`
      have been cut off by `reaper`, who is freeing them. */
  datatype Memory = Memory(entries: map<Ptr, Entry>, head: Ptr,
                           log: seq<Ptr>, floor: nat, lo: nat, hi: nat, reaper: Ptr)
  {
    /** Position i of the log holds an entry that has not been freed. */
    predicate Live(i: int) {
      lo <= i < hi || floor <= i < |log|
    }

    function SetNext(e: Ptr, next: Ptr): Memory
      requires e in entries
    {
      this.(entries := entries[e := entries[e].(next := next)])
    }

    /** A successful exchange: e becomes the head. */
    function Publish(e: Ptr): Memory
      requires e in entries
    {
      this.(entries := entries[e := entries[e].(stamp := |log|)], head := e, log := log + [e])
    }

    function Allocate(a: Ptr, e: Entry): Memory {
      this.(entries := entries[a := e])
    }

    function Cut(g: Ptr, k: nat): Memory {
      this.(reaper := g, lo := floor, hi := k, floor := k)
    }

    function Free(n: Ptr): Memory
      requires hi > 0
    {
      this.(entries := entries - {n}, hi := hi - 1)
    }

    function Release(e: Ptr): Memory
      requires e in entries
    {
      this.(entries := entries[e := entries[e].(owner := 0)])
    }
  }

  datatype Stack = Stack(m: Memory, guards: map<Ptr, Guard>, bad: bool)

  const Empty: Stack := Stack(Memory(map[], 0, [], 0, 0, 0, 0), map[], false)

  // ---------------------------------------------------------------- steps

  function Goto(s: Stack, m: Memory, g: Ptr, pc: Pc): Stack
    requires g in s.guards
  {
    Stack(m, s.guards[g := s.guards[g].(pc := pc)], s.bad)
  }

  /** The first access through a handle: the guard allocates its entry at a. */
  function Open(s: Stack, g: Ptr, a: Ptr): Stack {
    Stack(s.m.Allocate(a, Entry(0, g, 0, -1, g)), s.guards[g := Guard(a, LockLoad)], s.bad)
  }

  /** erase allocates, at a, the entry that will hold the unlinked node. */
  function Retire(s: Stack, g: Ptr, a: Ptr, node: Ptr): Stack
    requires g in s.guards
  {
    Goto(s, s.m.Allocate(a, Entry(0, 0, node, -1, g)), g, PushLoad(a))
  }

  /** The next step of guard g.  `weak` lets compare_exchange_weak fail for no reason. */
  function Advance(s: Stack, g: Ptr, weak: bool): Stack
    requires g in s.guards
  {
    var m := s.m;
    var e := s.guards[g].entry;
    match s.guards[g].pc
    case LockLoad => Goto(s, m, g, LockStore(m.head))
    case LockStore(prior) =>
      if e in m.entries then Goto(s, m.SetNext(e, prior), g, LockCas(prior)) else s.(bad := true)
    case LockCas(prior) =>
      if m.head != prior || weak then Goto(s, m, g, LockStore(m.head))
      else if e in m.entries then Goto(s, m.Publish(e), g, Holding)
      else s.(bad := true)
    case Holding => s
    case PushLoad(z) => Goto(s, m, g, PushStore(z, m.head))
    case PushStore(z, prior) =>
      if z in m.entries then Goto(s, m.SetNext(z, prior), g, PushCas(z, prior)) else s.(bad := true)
    case PushCas(z, prior) =>
      if m.head != prior || weak then Goto(s, m, g, PushStore(z, m.head))
      else if z in m.entries then Goto(s, m.Publish(z), g, Holding)
      else s.(bad := true)
    case UnlockLoad =>
      if e in m.entries then Goto(s, m, g, ScanOwner(m.entries[e].next, m.entries[e].next)) else s.(bad := true)
    case ScanOwner(cached, n) =>
      if n == 0 then
        if e in m.entries && m.entries[e].stamp >= 0 then Goto(s, m.Cut(g, m.entries[e].stamp), g, ReapRead(cached))
        else s.(bad := true)
      else if n !in m.entries then s.(bad := true)
      else if m.entries[n].owner != 0 then Goto(s, m, g, Clear(false))
      else Goto(s, m, g, ScanNext(cached, n))
    case ScanNext(cached, n) =>
      if n in m.entries then Goto(s, m, g, ScanOwner(cached, m.entries[n].next)) else s.(bad := true)
    case ReapRead(n) =>
      if n == 0 then
        if e in m.entries then Goto(s, m.SetNext(e, 0).(reaper := 0), g, Clear(true)) else s.(bad := true)
      else if n !in m.entries then s.(bad := true)
      else if m.entries[n].node != 0 then Goto(s, m, g, ReapNode(n, m.entries[n].node))
      else Goto(s, m, g, ReapNext(n))
    case ReapNode(n, dead) => Goto(s, m, g, ReapNext(n))
    case ReapNext(n) =>
      if n in m.entries then Goto(s, m, g, ReapFree(n, m.entries[n].next)) else s.(bad := true)
    case ReapFree(n, rest) =>
      if n in m.entries && m.hi > 0 then Goto(s, m.Free(n), g, ReapRead(rest)) else s.(bad := true)
    case Clear(last) =>
      if e in m.entries then Stack(m.Release(e), s.guards - {g}, s.bad) else s.(bad := true)
  }

  // ------------------------------------------------------------ invariant

  ghost predicate Shape(m: Memory) {
    && 0 !in m.entries
    && m.lo <= m.hi <= m.floor <= |m.log|
    && (|m.log| > 0 ==> m.floor < |m.log|)
    && m.head == (if |m.log| == 0 then 0 else m.log[|m.log| - 1])
    && (forall i {:trigger m.log[i]} :: m.Live(i) ==> m.log[i] in m.entries && m.entries[m.log[i]].stamp == i)
    && (forall e :: e in m.entries && m.entries[e].stamp != -1 ==>
          m.Live(m.entries[e].stamp) && m.log[m.entries[e].stamp] == e)
  }

  /** What the next field of the entry at position i must be. */
  ghost predicate NextOk(m: Memory, i: int)
    requires Shape(m) && m.Live(i)
  {
    var next := m.entries[m.log[i]].next;
    if i == m.floor then m.reaper == 0 ==> next == 0
    else if i == m.lo < m.hi then next == 0
    else next == m.log[i - 1]
  }

  ghost predicate ChainOk(m: Memory)
    requires Shape(m)
  {
    && (forall i {:trigger NextOk(m, i)} :: m.Live(i) ==> NextOk(m, i))
    && (forall i {:trigger m.log[i]} :: m.lo <= i < m.hi ==> m.entries[m.log[i]].owner == 0)
    && (m.reaper == 0 ==> m.lo == m.hi)
    && (m.reaper != 0 ==> |m.log| > 0 && m.entries[m.log[m.floor]].owner == m.reaper)
  }

  /** A set owner is a guard whose entry this is; an unpublished entry belongs to its maker. */
  ghost predicate EntryOk(x: Entry, e: Ptr, guards: map<Ptr, Guard>) {
    && (x.owner != 0 ==> x.owner in guards && guards[x.owner].entry == e && x.node == 0)
    && (x.stamp == -1 ==> x.maker in guards && guards[x.maker].Unpublished() == e)
  }

  /** Every entry strictly between positions j and k has a cleared owner. */
  ghost predicate Cleared(m: Memory, j: int, k: int)
    requires Shape(m) && m.floor - 1 <= j && k <= |m.log|
  {
    forall i {:trigger m.log[i]} :: j < i < k ==> m.entries[m.log[i]].owner == 0
  }

  /** A scan started at position k has reached n: it skipped no active guard. */
  ghost predicate ScanOk(m: Memory, k: int, n: Ptr)
    requires Shape(m) && m.floor <= k < |m.log|
  {
    if n == 0 then Cleared(m, m.floor - 1, k)
    else n in m.entries && m.floor <= m.entries[n].stamp < k && Cleared(m, m.entries[n].stamp, k)
  }

  ghost predicate FreshEntry(m: Memory, g: Ptr, z: Ptr) {
    z in m.entries && m.entries[z].stamp == -1 && m.entries[z].owner == 0 && m.entries[z].maker == g
  }

  /** The reaper stands on the newest entry of its segment. */
  ghost predicate AtSegment(m: Memory, n: Ptr)
    requires Shape(m)
  {
    m.lo < m.hi && n == m.log[m.hi - 1]
  }

  ghost predicate PcOk(m: Memory, g: Ptr, e: Ptr, pc: Pc)
    requires Shape(m) && e in m.entries
  {
    if pc.Locking() then
      m.entries[e].stamp == -1 && m.entries[e].maker == g && (pc.LockCas? ==> m.entries[e].next == pc.prior)
    else
      var k := m.entries[e].stamp;
      && m.floor <= k
      && (pc.Reaping() <==> m.reaper == g)
      && (pc.Reaping() ==> m.floor == k)
      && match pc {
           case PushLoad(z) => FreshEntry(m, g, z)
           case PushStore(z, _) => FreshEntry(m, g, z)
           case PushCas(z, prior) => FreshEntry(m, g, z) && m.entries[z].next == prior
           case ScanOwner(cached, n) => m.entries[e].next == cached && ScanOk(m, k, n)
           case ScanNext(cached, n) =>
             m.entries[e].next == cached && n != 0 && ScanOk(m, k, n) && m.entries[n].owner == 0
           case ReapRead(n) => if n == 0 then m.lo == m.hi else AtSegment(m, n)
           case ReapNode(n, dead) => AtSegment(m, n) && dead != 0 && m.entries[n].node == dead
           case ReapNext(n) => AtSegment(m, n)
           case ReapFree(n, rest) => AtSegment(m, n) && m.entries[n].next == rest
           case Clear(last) => last ==> m.floor == k && m.entries[e].next == 0
           case _ => true
         }
  }

  ghost predicate GuardOk(m: Memory, g: Ptr, guard: Guard)
    requires Shape(m)
  {
    guard.entry in m.entries && m.entries[guard.entry].owner == g && PcOk(m, g, guard.entry, guard.pc)
  }

  ghost predicate Inv(s: Stack) {
    && !s.bad && 0 !in s.guards
    && Shape(s.m) && ChainOk(s.m)
    && (forall e :: e in s.m.entries ==> EntryOk(s.m.entries[e], e, s.guards))
    && (forall g :: g in s.guards ==> GuardOk(s.m, g, s.guards[g]))
  }

  // --------------------------------------------------------- preservation

  /** Assembles the invariant after a step of g from its effect on memory. */
  lemma StepInv(s: Stack, m: Memory, g: Ptr, pc: Pc)
    requires Inv(s) && g in s.guards && Shape(m) && ChainOk(m)
    requires forall e :: e in m.entries ==> EntryOk(m.entries[e], e, s.guards[g := s.guards[g].(pc := pc)])
    requires forall h :: h in s.guards && h != g ==> GuardOk(m, h, s.guards[h])
    requires GuardOk(m, g, s.guards[g].(pc := pc))
    ensures Inv(Goto(s, m, g, pc))
  {
  }

  /** A step that only moves g's program counter. */
  lemma GotoInv(s: Stack, g: Ptr, pc: Pc)
    requires Inv(s) && g in s.guards
    requires Guard(s.guards[g].entry, pc).Unpublished() == s.guards[g].Unpublished()
    requires PcOk(s.m, g, s.guards[g].entry, pc)
    ensures Inv(Goto(s, s.m, g, pc))
  {
  }

  /** From m to t nothing is freed or cut, and no published entry changes:
      only z, which is not published in m, and what is published afterwards. */
  ghost predicate Extends(m: Memory, t: Memory, z: Ptr) {
    && t.floor == m.floor && t.lo == m.lo && t.hi == m.hi && t.reaper == m.reaper
    && m.log <= t.log
    && (forall x {:trigger m.entries[x]} {:trigger t.entries[x]} :: x in m.entries && x != z ==>
          x in t.entries && t.entries[x] == m.entries[x])
    && (z in m.entries ==> m.entries[z].stamp == -1)
  }

  lemma ExtendsCleared(m: Memory, t: Memory, z: Ptr, j: int, k: int)
    requires Shape(m) && Shape(t) && Extends(m, t, z)
    requires m.floor - 1 <= j && k <= |m.log| && Cleared(m, j, k)
    ensures Cleared(t, j, k)
  {
    forall i {:trigger t.log[i]} | j < i < k ensures t.entries[t.log[i]].owner == 0 {
      assert m.Live(i) && t.log[i] == m.log[i];
    }
  }

  lemma ExtendsGuard(m: Memory, t: Memory, z: Ptr, h: Ptr, guard: Guard)
    requires Shape(m) && Shape(t) && Extends(m, t, z) && GuardOk(m, h, guard) && guard.Unpublished() != z
    ensures GuardOk(t, h, guard)
  {
    if guard.pc.ScanOwner? || guard.pc.ScanNext? {
      var n := guard.pc.n;
      ExtendsCleared(m, t, z, if n == 0 then m.floor - 1 else m.entries[n].stamp, m.entries[guard.entry].stamp);
    }
  }

  lemma AllocateOk(m: Memory, a: Ptr, e: Entry)
    requires Shape(m) && ChainOk(m) && a != 0 && a !in m.entries && e.stamp == -1
    ensures Shape(m.Allocate(a, e)) && ChainOk(m.Allocate(a, e)) && Extends(m, m.Allocate(a, e), a)
  {
    var t := m.Allocate(a, e);
    forall i | t.Live(i) ensures NextOk(t, i) { assert m.Live(i) && NextOk(m, i); }
  }

  lemma OpenInv(s: Stack, g: Ptr, a: Ptr)
    requires Inv(s) && g != 0 && g !in s.guards && a != 0 && a !in s.m.entries
    ensures Inv(Open(s, g, a))
  {
    AllocateOk(s.m, a, Entry(0, g, 0, -1, g));
    OpenGuards(s, g, a);
    OpenEntries(s, g, a);
  }

  lemma OpenGuards(s: Stack, g: Ptr, a: Ptr)
    requires Inv(s) && g != 0 && g !in s.guards && a != 0 && a !in s.m.entries
    requires Shape(Open(s, g, a).m) && Extends(s.m, Open(s, g, a).m, a)
    ensures var t := Open(s, g, a); forall h :: h in t.guards ==> GuardOk(t.m, h, t.guards[h])
  {
    var t := Open(s, g, a);
    forall h | h in t.guards ensures GuardOk(t.m, h, t.guards[h]) {
      if h != g {
        assert GuardOk(s.m, h, s.guards[h]);
        ExtendsGuard(s.m, t.m, a, h, s.guards[h]);
      }
    }
  }

  lemma OpenEntries(s: Stack, g: Ptr, a: Ptr)
    requires g != 0 && g !in s.guards && a !in s.m.entries
    requires forall e :: e in s.m.entries ==> EntryOk(s.m.entries[e], e, s.guards)
    ensures var t := Open(s, g, a); forall e :: e in t.m.entries ==> EntryOk(t.m.entries[e], e, t.guards)
  {
    var t := Open(s, g, a);
    forall e | e in t.m.entries ensures EntryOk(t.m.entries[e], e, t.guards) {
      if e != a { assert EntryOk(s.m.entries[e], e, s.guards); }
    }
  }

  lemma ExtendEntries(s: Stack, t: Memory, z: Ptr, g: Ptr, pc: Pc)
    requires Inv(s) && g in s.guards && Extends(s.m, t, z) && t.entries.Keys == s.m.entries.Keys + {z}
    requires s.guards[g].Unpublished() == if z in s.m.entries then z else 0
    requires EntryOk(t.entries[z], z, s.guards[g := s.guards[g].(pc := pc)])
    ensures forall e :: e in t.entries ==> EntryOk(t.entries[e], e, s.guards[g := s.guards[g].(pc := pc)])
  {
    forall e | e in t.entries ensures EntryOk(t.entries[e], e, s.guards[g := s.guards[g].(pc := pc)]) {
      if e != z { assert EntryOk(s.m.entries[e], e, s.guards); }
    }
  }

  /** A step of g that touches only z, an entry of g's own or a new one. */
  lemma ExtendInv(s: Stack, t: Memory, z: Ptr, g: Ptr, pc: Pc)
    requires Inv(s) && g in s.guards && Shape(t) && ChainOk(t) && Extends(s.m, t, z)
    requires z != 0 && t.entries.Keys == s.m.entries.Keys + {z}
    requires s.guards[g].Unpublished() == if z in s.m.entries then z else 0
    requires EntryOk(t.entries[z], z, s.guards[g := s.guards[g].(pc := pc)])
    requires GuardOk(t, g, s.guards[g].(pc := pc))
    ensures Inv(Goto(s, t, g, pc))
  {
    ExtendEntries(s, t, z, g, pc);
    forall h | h in s.guards && h != g ensures GuardOk(t, h, s.guards[h]) {
      if s.guards[h].Unpublished() == z { UnpublishedApart(s, h, g); }
      ExtendsGuard(s.m, t, z, h, s.guards[h]);
    }
    StepInv(s, t, g, pc);
  }

  /** No two guards share an unpublished entry. */
  lemma UnpublishedApart(s: Stack, h: Ptr, g: Ptr)
    requires Inv(s) && g in s.guards && h in s.guards && g != h && s.guards[h].Unpublished() != 0
    ensures s.guards[h].Unpublished() in s.m.entries && s.guards[h].Unpublished() != s.guards[g].Unpublished()
  {
    assert GuardOk(s.m, h, s.guards[h]);
  }

  lemma RetireInv(s: Stack, g: Ptr, a: Ptr, node: Ptr)
    requires Inv(s) && g in s.guards && s.guards[g].pc.Holding? && a != 0 && a !in s.m.entries
    ensures Inv(Retire(s, g, a, node))
  {
    AllocateOk(s.m, a, Entry(0, 0, node, -1, g));
    ExtendInv(s, s.m.Allocate(a, Entry(0, 0, node, -1, g)), a, g, PushLoad(a));
  }

  /** Changing the next field of an entry nobody can see yet. */
  lemma SetNextOk(m: Memory, e: Ptr, next: Ptr)
    requires Shape(m) && ChainOk(m) && e in m.entries && m.entries[e].stamp == -1
    ensures Shape(m.SetNext(e, next)) && ChainOk(m.SetNext(e, next)) && Extends(m, m.SetNext(e, next), e)
  {
    var t := m.SetNext(e, next);
    forall i | t.Live(i) ensures NextOk(t, i) { assert m.Live(i) && NextOk(m, i); }
  }

  /** The exchange succeeds only when the entry's next is the current head. */
  lemma PublishOk(m: Memory, e: Ptr)
    requires Shape(m) && ChainOk(m) && e in m.entries && m.entries[e].stamp == -1 && m.entries[e].next == m.head
    ensures Shape(m.Publish(e)) && ChainOk(m.Publish(e)) && Extends(m, m.Publish(e), e)
  {
    var t := m.Publish(e);
    forall i | t.Live(i) ensures NextOk(t, i) {
      if i < |m.log| { assert m.Live(i) && NextOk(m, i); }
    }
  }

  lemma StoreInv(s: Stack, g: Ptr, prior: Ptr, pc: Pc)
    requires Inv(s) && g in s.guards
    requires || (s.guards[g].pc == LockStore(prior) && pc == LockCas(prior))
             || (s.guards[g].pc.PushStore? && s.guards[g].pc.prior == prior && pc == PushCas(s.guards[g].pc.z, prior))
    ensures s.guards[g].Unpublished() in s.m.entries
    ensures Inv(Goto(s, s.m.SetNext(s.guards[g].Unpublished(), prior), g, pc))
  {
    var z := s.guards[g].Unpublished();
    SetNextOk(s.m, z, prior);
    ExtendInv(s, s.m.SetNext(z, prior), z, g, pc);
  }

  lemma CasInv(s: Stack, g: Ptr)
    requires Inv(s) && g in s.guards && (s.guards[g].pc.LockCas? || s.guards[g].pc.PushCas?)
    requires s.guards[g].pc.prior == s.m.head
    ensures s.guards[g].Unpublished() in s.m.entries
    ensures Inv(Goto(s, s.m.Publish(s.guards[g].Unpublished()), g, Holding))
  {
    var z := s.guards[g].Unpublished();
    PublishOk(s.m, z);
    ExtendInv(s, s.m.Publish(z), z, g, Holding);
  }

  lemma LoadInv(s: Stack, g: Ptr, pc: Pc)
    requires Inv(s) && g in s.guards
    requires match s.guards[g].pc {
               case LockLoad => pc == LockStore(s.m.head)
               case LockCas(_) => pc == LockStore(s.m.head)
               case PushLoad(z) => pc == PushStore(z, s.m.head)
               case PushCas(z, _) => pc == PushStore(z, s.m.head)
               case _ => false }
    ensures Inv(Goto(s, s.m, g, pc))
  {
    assert GuardOk(s.m, g, s.guards[g]);
    GotoInv(s, g, pc);
  }

  lemma PushInv(s: Stack, g: Ptr, weak: bool)
    requires Inv(s) && g in s.guards && (s.guards[g].pc.Locking() || s.guards[g].pc.Pushing())
    ensures Inv(Advance(s, g, weak))
  {
    match s.guards[g].pc
    case LockLoad => LoadInv(s, g, LockStore(s.m.head));
    case PushLoad(z) => LoadInv(s, g, PushStore(z, s.m.head));
    case LockStore(prior) => StoreInv(s, g, prior, LockCas(prior));
    case PushStore(z, prior) => StoreInv(s, g, prior, PushCas(z, prior));
    case LockCas(prior) =>
      if s.m.head != prior || weak { LoadInv(s, g, LockStore(s.m.head)); } else { CasInv(s, g); }
    case PushCas(z, prior) =>
      if s.m.head != prior || weak { LoadInv(s, g, PushStore(z, s.m.head)); } else { CasInv(s, g); }
  }

  // Scanning.

  /** From a cleared entry the scan steps to the next older one, or off the end. */
  lemma ScanNextOk(s: Stack, g: Ptr)
    requires Inv(s) && g in s.guards && s.guards[g].pc.ScanNext?
    ensures ScanOk(s.m, s.m.entries[s.guards[g].entry].stamp, s.m.entries[s.guards[g].pc.n].next)
  {
    var m, n := s.m, s.guards[g].pc.n;
    var j := m.entries[n].stamp;
    assert m.Live(j) && NextOk(m, j);
    if j > m.floor {
      assert m.Live(j - 1) && m.log[j - 1] in m.entries;
    }
  }

  lemma ScanStart(s: Stack, g: Ptr)
    requires Inv(s) && g in s.guards && s.guards[g].pc.UnlockLoad?
    ensures s.guards[g].entry in s.m.entries
    ensures var next := s.m.entries[s.guards[g].entry].next; Inv(Goto(s, s.m, g, ScanOwner(next, next)))
  {
    var m, e := s.m, s.guards[g].entry;
    assert GuardOk(m, g, s.guards[g]);
    var k := m.entries[e].stamp;
    assert m.Live(k) && NextOk(m, k);
    if k > m.floor { assert m.Live(k - 1); }
    GotoInv(s, g, ScanOwner(m.entries[e].next, m.entries[e].next));
  }

  lemma ScanWalk(s: Stack, g: Ptr)
    requires Inv(s) && g in s.guards && (s.guards[g].pc.ScanNext? || (s.guards[g].pc.ScanOwner? && s.guards[g].pc.n != 0))
    ensures s.guards[g].pc.n in s.m.entries
    ensures var pc, n := s.guards[g].pc, s.m.entries[s.guards[g].pc.n];
            Inv(Goto(s, s.m, g, if pc.ScanNext? then ScanOwner(pc.cached, n.next)
                                else if n.owner != 0 then Clear(false) else ScanNext(pc.cached, pc.n)))
  {
    var pc, m := s.guards[g].pc, s.m;
    assert GuardOk(m, g, s.guards[g]);
    if pc.ScanNext? {
      ScanNextOk(s, g);
      GotoInv(s, g, ScanOwner(pc.cached, m.entries[pc.n].next));
    } else {
      GotoInv(s, g, if m.entries[pc.n].owner != 0 then Clear(false) else ScanNext(pc.cached, pc.n));
    }
  }

  lemma ScanInv(s: Stack, g: Ptr, weak: bool)
    requires Inv(s) && g in s.guards
    requires var pc := s.guards[g].pc; pc.UnlockLoad? || pc.ScanNext? || (pc.ScanOwner? && pc.n != 0)
    ensures Inv(Advance(s, g, weak))
  {
    if s.guards[g].pc.UnlockLoad? {
      ScanStart(s, g);
    } else {
      ScanWalk(s, g);
      ScanStep(s, g, weak);
    }
  }

  lemma ScanStep(s: Stack, g: Ptr, weak: bool)
    requires g in s.guards && (s.guards[g].pc.ScanNext? || (s.guards[g].pc.ScanOwner? && s.guards[g].pc.n != 0))
    requires s.guards[g].pc.n in s.m.entries
    ensures var pc, n := s.guards[g].pc, s.m.entries[s.guards[g].pc.n];
            Advance(s, g, weak) == Goto(s, s.m, g, if pc.ScanNext? then ScanOwner(pc.cached, n.next)
                                                   else if n.owner != 0 then Clear(false) else ScanNext(pc.cached, pc.n))
  {
  }

  // Reclaiming.

  /** A scan that reached the end met no reaper. */
  lemma NoReaper(s: Stack, g: Ptr)
    requires Inv(s) && g in s.guards && s.guards[g].pc.ScanOwner? && s.guards[g].pc.n == 0
    ensures s.m.reaper == 0
  {
    assert GuardOk(s.m, g, s.guards[g]);
    if s.m.floor < s.m.entries[s.guards[g].entry].stamp { assert s.m.Live(s.m.floor); }
  }

  lemma CutShape(m: Memory, g: Ptr, k: nat)
    requires Shape(m) && m.reaper == 0 && m.lo == m.hi && m.floor <= k < |m.log|
    ensures Shape(m.Cut(g, k)) && forall i :: m.Cut(g, k).Live(i) <==> m.Live(i)
  {
  }

  lemma CutNext(m: Memory, g: Ptr, k: nat, i: int)
    requires Shape(m) && m.reaper == 0 && m.lo == m.hi && m.floor <= k < |m.log| && g != 0
    requires Shape(m.Cut(g, k)) && m.Live(i) && m.Cut(g, k).Live(i) && NextOk(m, i)
    ensures NextOk(m.Cut(g, k), i)
  {
  }

  lemma CutOwners(m: Memory, g: Ptr, k: nat)
    requires Shape(m) && m.floor <= k < |m.log| && Cleared(m, m.floor - 1, k)
    ensures forall i {:trigger m.log[i]} :: m.floor <= i < k ==> m.log[i] in m.entries && m.entries[m.log[i]].owner == 0
  {
    forall i {:trigger m.log[i]} | m.floor <= i < k ensures m.log[i] in m.entries && m.entries[m.log[i]].owner == 0 {
      assert m.Live(i);
    }
  }

  lemma CutPc(m: Memory, g: Ptr, e: Ptr)
    requires Shape(m) && ChainOk(m) && m.reaper == 0 && e in m.entries && m.floor <= m.entries[e].stamp
    requires Shape(m.Cut(g, m.entries[e].stamp))
    ensures PcOk(m.Cut(g, m.entries[e].stamp), g, e, ReapRead(m.entries[e].next))
  {
    var k := m.entries[e].stamp;
    assert m.Live(k) && NextOk(m, k);
    if k > m.floor { assert m.Live(k - 1); }
  }

  lemma CutOk(m: Memory, g: Ptr, e: Ptr)
    requires Shape(m) && ChainOk(m) && m.reaper == 0 && g != 0 && e in m.entries
    requires m.entries[e].owner == g && m.floor <= m.entries[e].stamp && Cleared(m, m.floor - 1, m.entries[e].stamp)
    ensures var t := m.Cut(g, m.entries[e].stamp); Shape(t) && ChainOk(t) && PcOk(t, g, e, ReapRead(m.entries[e].next))
  {
    var k := m.entries[e].stamp;
    var t := m.Cut(g, k);
    CutShape(m, g, k);
    CutOwners(m, g, k);
    CutPc(m, g, e);
    forall i {:trigger NextOk(t, i)} | t.Live(i) ensures NextOk(t, i) { CutNext(m, g, k, i); }
  }

  /** The guards that are still active when g cuts the stack all lie above g. */
  lemma CutGuard(m: Memory, g: Ptr, e: Ptr, h: Ptr, guard: Guard)
    requires Shape(m) && m.reaper == 0 && g != 0 && h != 0 && h != g && e in m.entries
    requires m.entries[e].owner == g && m.floor <= m.entries[e].stamp && Cleared(m, m.floor - 1, m.entries[e].stamp)
    requires Shape(m.Cut(g, m.entries[e].stamp)) && GuardOk(m, h, guard)
    ensures GuardOk(m.Cut(g, m.entries[e].stamp), h, guard)
  {
    var k := m.entries[e].stamp;
    if !guard.pc.Locking() {
      var j := m.entries[guard.entry].stamp;
      assert m.log[k] == e && m.log[j] == guard.entry;
      assert j > k;
    }
  }

  lemma StartReapInv(s: Stack, g: Ptr, weak: bool)
    requires Inv(s) && g in s.guards && s.guards[g].pc.ScanOwner? && s.guards[g].pc.n == 0
    ensures Inv(Advance(s, g, weak))
  {
    NoReaper(s, g);
    CutStartInv(s, g);
  }

  lemma CutStartInv(s: Stack, g: Ptr)
    requires Inv(s) && g in s.guards && s.guards[g].pc.ScanOwner? && s.guards[g].pc.n == 0 && s.m.reaper == 0
    ensures s.guards[g].entry in s.m.entries && s.m.entries[s.guards[g].entry].stamp >= 0
    ensures Inv(Goto(s, s.m.Cut(g, s.m.entries[s.guards[g].entry].stamp), g, ReapRead(s.guards[g].pc.cached)))
  {
    var e := s.guards[g].entry;
    assert GuardOk(s.m, g, s.guards[g]);
    var t := s.m.Cut(g, s.m.entries[e].stamp);
    CutOk(s.m, g, e);
    CutGuards(s, g);
    StepInv(s, t, g, ReapRead(s.guards[g].pc.cached));
  }

  lemma CutGuards(s: Stack, g: Ptr)
    requires Inv(s) && g in s.guards && s.guards[g].pc.ScanOwner? && s.guards[g].pc.n == 0 && s.m.reaper == 0
    requires s.guards[g].entry in s.m.entries && s.m.entries[s.guards[g].entry].stamp >= 0
    requires Shape(s.m.Cut(g, s.m.entries[s.guards[g].entry].stamp))
    ensures forall h :: h in s.guards && h != g ==> GuardOk(s.m.Cut(g, s.m.entries[s.guards[g].entry].stamp), h, s.guards[h])
  {
    var e := s.guards[g].entry;
    assert GuardOk(s.m, g, s.guards[g]);
    forall h | h in s.guards && h != g ensures GuardOk(s.m.Cut(g, s.m.entries[e].stamp), h, s.guards[h]) {
      CutGuard(s.m, g, e, h, s.guards[h]);
    }
  }

  lemma ReapWalkInv(s: Stack, g: Ptr, weak: bool)
    requires Inv(s) && g in s.guards
    requires var pc := s.guards[g].pc; pc.ReapNode? || pc.ReapNext? || (pc.ReapRead? && pc.n != 0)
    ensures Inv(Advance(s, g, weak))
  {
    var m := s.m;
    match s.guards[g].pc
    case ReapRead(n) =>
      assert m.Live(m.hi - 1);
      GotoInv(s, g, if m.entries[n].node != 0 then ReapNode(n, m.entries[n].node) else ReapNext(n));
    case ReapNode(n, _) => GotoInv(s, g, ReapNext(n));
    case ReapNext(n) =>
      assert m.Live(m.hi - 1);
      GotoInv(s, g, ReapFree(n, m.entries[n].next));
  }

  lemma FreeOk(m: Memory, n: Ptr)
    requires Shape(m) && ChainOk(m) && AtSegment(m, n)
    ensures n in m.entries && Shape(m.Free(n)) && ChainOk(m.Free(n))
    ensures m.entries[n].next == if m.hi - 1 == m.lo then 0 else m.log[m.hi - 2]
  {
    var t := m.Free(n);
    assert m.Live(m.hi - 1) && NextOk(m, m.hi - 1);
    forall i | t.Live(i) ensures NextOk(t, i) { assert m.Live(i) && NextOk(m, i); }
  }

  lemma FreeGuard(m: Memory, n: Ptr, h: Ptr, guard: Guard)
    requires Shape(m) && ChainOk(m) && AtSegment(m, n) && Shape(m.Free(n)) && h != 0 && m.reaper != h
    requires GuardOk(m, h, guard) && guard.Unpublished() != n
    ensures GuardOk(m.Free(n), h, guard)
  {
    assert m.Live(m.hi - 1);
    assert m.entries[n].stamp == m.hi - 1;
  }

  lemma FreeGuards(s: Stack, g: Ptr)
    requires Inv(s) && g in s.guards && s.guards[g].pc.ReapFree? && Shape(s.m.Free(s.guards[g].pc.n))
    ensures forall h :: h in s.guards && h != g ==> GuardOk(s.m.Free(s.guards[g].pc.n), h, s.guards[h])
  {
    forall h | h in s.guards && h != g ensures GuardOk(s.m.Free(s.guards[g].pc.n), h, s.guards[h]) {
      FreeGuard(s.m, s.guards[g].pc.n, h, s.guards[h]);
    }
  }

  /** The reaper itself goes on below the entry it freed. */
  lemma FreeSelf(m: Memory, g: Ptr, guard: Guard)
    requires Shape(m) && ChainOk(m) && guard.pc.ReapFree? && GuardOk(m, g, guard) && Shape(m.Free(guard.pc.n))
    ensures GuardOk(m.Free(guard.pc.n), g, guard.(pc := ReapRead(guard.pc.rest)))
  {
    FreeOk(m, guard.pc.n);
    assert m.entries[guard.pc.n].stamp == m.hi - 1 by { assert m.Live(m.hi - 1); }
    if m.hi - 1 != m.lo { assert m.Live(m.hi - 2); }
  }

  lemma FreeEntries(s: Stack, g: Ptr)
    requires (forall e :: e in s.m.entries ==> EntryOk(s.m.entries[e], e, s.guards)) && s.m.hi > 0
    requires g in s.guards && s.guards[g].pc.ReapFree?
    ensures var m := s.m.Free(s.guards[g].pc.n);
            forall e :: e in m.entries ==> EntryOk(m.entries[e], e, s.guards[g := s.guards[g].(pc := ReapRead(s.guards[g].pc.rest))])
  {
    forall e | e in s.m.Free(s.guards[g].pc.n).entries
      ensures EntryOk(s.m.entries[e], e, s.guards[g := s.guards[g].(pc := ReapRead(s.guards[g].pc.rest))])
    {
      assert EntryOk(s.m.entries[e], e, s.guards);
    }
  }

  lemma FreedInv(s: Stack, g: Ptr)
    requires Inv(s) && g in s.guards && s.guards[g].pc.ReapFree?
    ensures s.guards[g].pc.n in s.m.entries && s.m.hi > 0
    ensures Inv(Goto(s, s.m.Free(s.guards[g].pc.n), g, ReapRead(s.guards[g].pc.rest)))
  {
    FreeOk(s.m, s.guards[g].pc.n);
    FreeGuards(s, g);
    FreeSelf(s.m, g, s.guards[g]);
    FreeEntries(s, g);
    StepInv(s, s.m.Free(s.guards[g].pc.n), g, ReapRead(s.guards[g].pc.rest));
  }

  lemma ReapFreeStep(s: Stack, g: Ptr, weak: bool)
    requires g in s.guards && s.guards[g].pc.ReapFree? && s.guards[g].pc.n in s.m.entries && s.m.hi > 0
    ensures Advance(s, g, weak) == Goto(s, s.m.Free(s.guards[g].pc.n), g, ReapRead(s.guards[g].pc.rest))
  {
  }

  lemma ReapFreeInv(s: Stack, g: Ptr, weak: bool)
    requires Inv(s) && g in s.guards && s.guards[g].pc.ReapFree?
    ensures Inv(Advance(s, g, weak))
  {
    FreedInv(s, g);
    ReapFreeStep(s, g, weak);
  }

  lemma CutDoneOk(m: Memory, e: Ptr)
    requires Shape(m) && ChainOk(m) && e in m.entries && m.entries[e].stamp == m.floor && m.lo == m.hi
    ensures var t := m.SetNext(e, 0).(reaper := 0); Shape(t) && ChainOk(t)
  {
    var t := m.SetNext(e, 0).(reaper := 0);
    forall i | t.Live(i) ensures NextOk(t, i) { assert m.Live(i) && NextOk(m, i); }
  }

  lemma CutStoredInv(s: Stack, g: Ptr)
    requires Inv(s) && g in s.guards && s.guards[g].pc == ReapRead(0)
    ensures s.guards[g].entry in s.m.entries
    ensures Inv(Goto(s, s.m.SetNext(s.guards[g].entry, 0).(reaper := 0), g, Clear(true)))
  {
    var e := s.guards[g].entry;
    assert GuardOk(s.m, g, s.guards[g]);
    CutDoneOk(s.m, e);
    CutEntries(s, g);
    forall h | h in s.guards && h != g ensures GuardOk(s.m.SetNext(e, 0).(reaper := 0), h, s.guards[h]) {
      CutDoneGuard(s.m, e, h, s.guards[h]);
    }
    StepInv(s, s.m.SetNext(e, 0).(reaper := 0), g, Clear(true));
  }

  lemma CutDoneGuard(m: Memory, e: Ptr, h: Ptr, guard: Guard)
    requires Shape(m) && e in m.entries && m.entries[e].owner != h && m.reaper != h && m.entries[e].stamp == m.floor && h != 0
    requires Shape(m.SetNext(e, 0).(reaper := 0)) && GuardOk(m, h, guard)
    ensures GuardOk(m.SetNext(e, 0).(reaper := 0), h, guard)
  {
  }

  lemma CutEntries(s: Stack, g: Ptr)
    requires Inv(s) && g in s.guards && s.guards[g].pc == ReapRead(0) && s.guards[g].entry in s.m.entries
    ensures var t := s.m.SetNext(s.guards[g].entry, 0).(reaper := 0);
            forall x :: x in t.entries ==> EntryOk(t.entries[x], x, s.guards[g := s.guards[g].(pc := Clear(true))])
  {
    forall x | x in s.m.entries ensures EntryOk(s.m.entries[x], x, s.guards[g := s.guards[g].(pc := Clear(true))]) {
      assert EntryOk(s.m.entries[x], x, s.guards);
    }
  }

  lemma CutDoneInv(s: Stack, g: Ptr, weak: bool)
    requires Inv(s) && g in s.guards && s.guards[g].pc == ReapRead(0)
    ensures Inv(Advance(s, g, weak))
  {
    CutStoredInv(s, g);
  }

  lemma ReleaseOk(m: Memory, e: Ptr)
    requires Shape(m) && ChainOk(m) && e in m.entries && m.entries[e].owner != m.reaper
    ensures Shape(m.Release(e)) && ChainOk(m.Release(e))
  {
    var t := m.Release(e);
    forall i | t.Live(i) ensures NextOk(t, i) { assert m.Live(i) && NextOk(m, i); }
  }

  lemma ReleaseGuard(m: Memory, e: Ptr, h: Ptr, guard: Guard)
    requires Shape(m) && e in m.entries && m.entries[e].owner != 0 && m.entries[e].owner != h
    requires Shape(m.Release(e)) && GuardOk(m, h, guard)
    ensures GuardOk(m.Release(e), h, guard)
  {
  }

  lemma ReleaseEntries(s: Stack, g: Ptr)
    requires Inv(s) && g in s.guards && s.guards[g].pc.Clear?
    ensures var t := s.m.Release(s.guards[g].entry);
            forall e :: e in t.entries ==> EntryOk(t.entries[e], e, s.guards - {g})
  {
    var t := s.m.Release(s.guards[g].entry);
    forall e | e in t.entries ensures EntryOk(t.entries[e], e, s.guards - {g}) {
      assert EntryOk(s.m.entries[e], e, s.guards);
    }
  }

  lemma ClearInv(s: Stack, g: Ptr, weak: bool)
    requires Inv(s) && g in s.guards && s.guards[g].pc.Clear?
    ensures Inv(Advance(s, g, weak))
  {
    var t := Advance(s, g, weak);
    ReleaseOk(s.m, s.guards[g].entry);
    ReleaseEntries(s, g);
    forall h | h in t.guards ensures GuardOk(t.m, h, t.guards[h]) {
      ReleaseGuard(s.m, s.guards[g].entry, h, s.guards[h]);
    }
  }

  /** Every step of every guard keeps the invariant. */
  lemma AdvanceInv(s: Stack, g: Ptr, weak: bool)
    requires Inv(s) && g in s.guards
    ensures Inv(Advance(s, g, weak))
  {
    match s.guards[g].pc
    case Holding =>
    case UnlockLoad => ScanInv(s, g, weak);
    case ScanOwner(_, n) => if n == 0 { StartReapInv(s, g, weak); } else { ScanInv(s, g, weak); }
    case ScanNext(_, _) => ScanInv(s, g, weak);
    case ReapRead(n) => if n == 0 { CutDoneInv(s, g, weak); } else { ReapWalkInv(s, g, weak); }
    case ReapNode(_, _) => ReapWalkInv(s, g, weak);
    case ReapNext(_) => ReapWalkInv(s, g, weak);
    case ReapFree(_, _) => ReapFreeInv(s, g, weak);
    case Clear(_) => ClearInv(s, g, weak);
    case _ => PushInv(s, g, weak);
  }

  // ------------------------------------------- which data nodes the stack holds

  /** The reaper has freed the data node of the entry it stands on. */
  predicate NodeGone(s: Stack, i: int) {
    && i == s.m.hi - 1 && s.m.reaper in s.guards
    && (s.guards[s.m.reaper].pc.ReapNext? || s.guards[s.m.reaper].pc.ReapFree?)
  }

  /** The data node that the entry at position i has still to free, or 0. */
  function HeldNode(s: Stack, i: int): Ptr {
    if s.m.Live(i) && 0 <= i < |s.m.log| && s.m.log[i] in s.m.entries && !NodeGone(s, i)
    then s.m.entries[s.m.log[i]].node else 0
  }

  predicate Publishes(s: Stack, g: Ptr, weak: bool)
    requires g in s.guards
  {
    s.guards[g].pc.PushCas? && s.m.head == s.guards[g].pc.prior && !weak
  }

  /** What a step of g is expected to leave at position i. */
  function HeldAfter(s: Stack, g: Ptr, weak: bool, i: int): Ptr
    requires g in s.guards
  {
    if Publishes(s, g, weak) && i == |s.m.log| then
      if s.guards[g].pc.z in s.m.entries then s.m.entries[s.guards[g].pc.z].node else 0
    else if s.guards[g].pc.ReapNode? && i == s.m.hi - 1 then 0
    else HeldNode(s, i)
  }

  /** The reaper exists, is reaping, and its entry is the oldest on the stack. */
  lemma ReaperIs(s: Stack)
    requires Inv(s) && s.m.reaper != 0
    ensures s.m.reaper in s.guards && s.guards[s.m.reaper].pc.Reaping()
    ensures s.guards[s.m.reaper].entry == s.m.log[s.m.floor]
  {
    assert s.m.Live(s.m.floor);
    assert EntryOk(s.m.entries[s.m.log[s.m.floor]], s.m.log[s.m.floor], s.guards);
    assert GuardOk(s.m, s.m.reaper, s.guards[s.m.reaper]);
  }

  lemma HeldQuiet(s: Stack, g: Ptr, weak: bool, i: int)
    requires Inv(s) && g in s.guards && Advance(s, g, weak).m == s.m && !s.guards[g].pc.Clear?
    ensures HeldNode(Advance(s, g, weak), i) == HeldAfter(s, g, weak, i)
  {
    if s.m.reaper != 0 { ReaperIs(s); }
    assert GuardOk(s.m, g, s.guards[g]);
  }

  lemma HeldSetNext(s: Stack, g: Ptr, weak: bool, i: int)
    requires Inv(s) && g in s.guards && (s.guards[g].pc.LockStore? || s.guards[g].pc.PushStore?)
    ensures HeldNode(Advance(s, g, weak), i) == HeldAfter(s, g, weak, i)
  {
    if s.m.reaper != 0 { ReaperIs(s); }
    assert GuardOk(s.m, g, s.guards[g]);
  }

  lemma HeldLock(s: Stack, g: Ptr, weak: bool, i: int)
    requires Inv(s) && g in s.guards && s.guards[g].pc.LockCas?
    ensures HeldNode(Advance(s, g, weak), i) == HeldAfter(s, g, weak, i)
  {
    if s.m.reaper != 0 { ReaperIs(s); }
    assert GuardOk(s.m, g, s.guards[g]) && EntryOk(s.m.entries[s.guards[g].entry], s.guards[g].entry, s.guards);
  }

  lemma HeldPush(s: Stack, g: Ptr, weak: bool, i: int)
    requires Inv(s) && g in s.guards && s.guards[g].pc.PushCas?
    ensures HeldNode(Advance(s, g, weak), i) == HeldAfter(s, g, weak, i)
  {
    if s.m.reaper != 0 { ReaperIs(s); }
    assert GuardOk(s.m, g, s.guards[g]);
  }

  lemma HeldReap(s: Stack, g: Ptr, weak: bool, i: int)
    requires Inv(s) && g in s.guards
    requires var pc := s.guards[g].pc; pc.ReapFree? || pc == ReapRead(0) || (pc.ScanOwner? && pc.n == 0)
    ensures HeldNode(Advance(s, g, weak), i) == HeldAfter(s, g, weak, i)
  {
    assert GuardOk(s.m, g, s.guards[g]);
    if s.guards[g].pc.ScanOwner? { NoReaper(s, g); } else { ReaperIs(s); }
    if s.m.Live(i) { assert s.m.entries[s.m.log[i]].stamp == i; }
  }

  lemma HeldClear(s: Stack, g: Ptr, weak: bool, i: int)
    requires Inv(s) && g in s.guards && s.guards[g].pc.Clear?
    ensures HeldNode(Advance(s, g, weak), i) == HeldAfter(s, g, weak, i)
  {
    assert GuardOk(s.m, g, s.guards[g]);
    if s.m.reaper != 0 { ReaperIs(s); }
  }

  /** A step changes what the stack holds only by publishing a zombie entry or
      by freeing a data node. */
  lemma AdvanceHeld(s: Stack, g: Ptr, weak: bool, i: int)
    requires Inv(s) && g in s.guards
    ensures HeldNode(Advance(s, g, weak), i) == HeldAfter(s, g, weak, i)
  {
    match s.guards[g].pc
    case LockStore(_) => HeldSetNext(s, g, weak, i);
    case PushStore(_, _) => HeldSetNext(s, g, weak, i);
    case LockCas(_) => HeldLock(s, g, weak, i);
    case PushCas(_, _) => HeldPush(s, g, weak, i);
    case ScanOwner(_, n) => if n == 0 { HeldReap(s, g, weak, i); } else { HeldQuiet(s, g, weak, i); }
    case ReapRead(n) => if n == 0 { HeldReap(s, g, weak, i); } else { HeldQuiet(s, g, weak, i); }
    case ReapFree(_, _) => HeldReap(s, g, weak, i);
    case Clear(_) => HeldClear(s, g, weak, i);
    case _ => HeldQuiet(s, g, weak, i);
  }

  /** The entry e is there before and after, at the same position. */
  predicate SameStamp(m: Memory, t: Memory, e: Ptr) {
    e in m.entries && e in t.entries && t.entries[e].stamp == m.entries[e].stamp
  }

  lemma PushStamp(s: Stack, g: Ptr, weak: bool, e: Ptr)
    requires Shape(s.m) && g in s.guards && (s.guards[g].pc.Locking() || s.guards[g].pc.Pushing())
    requires GuardOk(s.m, g, s.guards[g]) && e in s.m.entries && s.m.entries[e].stamp != -1
    ensures SameStamp(s.m, Advance(s, g, weak).m, e)
  {
  }

  lemma UnlockStamp(s: Stack, g: Ptr, weak: bool, e: Ptr)
    requires Shape(s.m) && g in s.guards && !s.guards[g].pc.Locking() && !s.guards[g].pc.Pushing()
    requires GuardOk(s.m, g, s.guards[g]) && e in s.m.entries && s.m.entries[e].stamp >= s.m.floor
    ensures SameStamp(s.m, Advance(s, g, weak).m, e)
  {
    if s.guards[g].pc.ReapFree? { assert s.m.Live(s.m.hi - 1); }
  }

  /** The position of a published guard entry never changes. */
  lemma AdvanceStamp(s: Stack, g: Ptr, weak: bool, h: Ptr)
    requires Shape(s.m) && g in s.guards && h in s.guards && !s.guards[h].pc.Locking()
    requires GuardOk(s.m, g, s.guards[g]) && GuardOk(s.m, h, s.guards[h])
    ensures SameStamp(s.m, Advance(s, g, weak).m, s.guards[h].entry)
  {
    if s.guards[g].pc.Locking() || s.guards[g].pc.Pushing() { PushStamp(s, g, weak, s.guards[h].entry); }
    else { UnlockStamp(s, g, weak, s.guards[h].entry); }
  }

  /** No step changes which entry a guard has. */
  lemma AdvanceKeepsEntry(s: Stack, g: Ptr, weak: bool, h: Ptr)
    requires g in s.guards && h in s.guards && h in Advance(s, g, weak).guards
    ensures Advance(s, g, weak).guards[h].entry == s.guards[h].entry
  {
  }

  lemma OpenHeld(s: Stack, g: Ptr, a: Ptr, i: int)
    requires Inv(s) && g != 0 && g !in s.guards && a != 0 && a !in s.m.entries
    ensures HeldNode(Open(s, g, a), i) == HeldNode(s, i)
  {
    if s.m.reaper != 0 { ReaperIs(s); }
  }

  lemma RetireHeld(s: Stack, g: Ptr, a: Ptr, node: Ptr, i: int)
    requires Inv(s) && g in s.guards && s.guards[g].pc.Holding? && a != 0 && a !in s.m.entries
    ensures HeldNode(Retire(s, g, a, node), i) == HeldNode(s, i)
  {
    if s.m.reaper != 0 { ReaperIs(s); }
  }

  lemma UnlockHeld(s: Stack, g: Ptr, i: int)
    requires Inv(s) && g in s.guards && s.guards[g].pc.Holding?
    ensures HeldNode(Goto(s, s.m, g, UnlockLoad), i) == HeldNode(s, i)
  {
    if s.m.reaper != 0 { ReaperIs(s); }
  }

  /** Where g's entry stands in the log, -1 before it is published. */
  function Position(s: Stack, g: Ptr): int {
    if g in s.guards && s.guards[g].entry in s.m.entries then s.m.entries[s.guards[g].entry].stamp else -1
  }

  /** A usable guard stands on the live part of the stack. */
  lemma PositionLive(s: Stack, g: Ptr)
    requires Inv(s) && g in s.guards && !s.guards[g].pc.Locking()
    ensures s.m.floor <= Position(s, g) < |s.m.log|
  {
    assert GuardOk(s.m, g, s.guards[g]);
  }

  lemma AdvancePosition(s: Stack, g: Ptr, weak: bool, h: Ptr)
    requires Inv(s) && g in s.guards && h in s.guards && !s.guards[h].pc.Locking() && h in Advance(s, g, weak).guards
    ensures Position(Advance(s, g, weak), h) == Position(s, h)
  {
    AdvanceStamp(s, g, weak, h);
    AdvanceKeepsEntry(s, g, weak, h);
  }

  lemma AdvanceFloor(s: Stack, g: Ptr, weak: bool)
    requires Inv(s) && g in s.guards
    ensures Advance(s, g, weak).m.floor >= s.m.floor
  {
    assert GuardOk(s.m, g, s.guards[g]);
  }

  // Where a step can take its guard.

  lemma AdvanceOther(s: Stack, g: Ptr, weak: bool, h: Ptr)
    requires g in s.guards && h != g
    ensures h in Advance(s, g, weak).guards <==> h in s.guards
    ensures h in s.guards ==> Advance(s, g, weak).guards[h] == s.guards[h]
  {
  }

  lemma AdvanceLocking(s: Stack, g: Ptr, weak: bool)
    requires g in s.guards && s.guards[g].pc.Locking()
    ensures g in Advance(s, g, weak).guards
    ensures Advance(s, g, weak).guards[g].pc.Locking() || Advance(s, g, weak).guards[g].pc.Holding?
  {
  }

  lemma AdvancePushing(s: Stack, g: Ptr, weak: bool)
    requires g in s.guards && s.guards[g].pc.Pushing() && s.guards[g].pc.z in s.m.entries
    ensures var t, z := Advance(s, g, weak), s.guards[g].pc.z;
            && g in t.guards && z in t.m.entries && t.m.entries[z].node == s.m.entries[z].node
            && if Publishes(s, g, weak) then t.guards[g].pc.Holding? else t.guards[g].pc.Pushing() && t.guards[g].pc.z == z
  {
  }

  predicate Unlocking(pc: Pc) {
    !pc.Locking() && !pc.Holding? && !pc.Pushing()
  }

  lemma AdvanceUnlocking(s: Stack, g: Ptr, weak: bool)
    requires g in s.guards && Unlocking(s.guards[g].pc)
    ensures g in Advance(s, g, weak).guards ==> Unlocking(Advance(s, g, weak).guards[g].pc)
    ensures !s.guards[g].pc.Clear? ==> g in Advance(s, g, weak).guards
  {
  }

  /** An unpublished zombie entry keeps its node while other guards step. */
  lemma AdvanceNode(s: Stack, g: Ptr, weak: bool, z: Ptr)
    requires Inv(s) && g in s.guards && z in s.m.entries && s.m.entries[z].stamp == -1
    ensures var t := Advance(s, g, weak).m; z in t.entries && t.entries[z].node == s.m.entries[z].node
  {
    assert GuardOk(s.m, g, s.guards[g]);
    if s.guards[g].pc.ReapFree? { assert s.m.Live(s.m.hi - 1); }
  }
}
