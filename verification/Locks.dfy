/** Which mutexes the threads hold and wait for while they connect, disconnect,
    destroy senders and receivers, and emit signals. Handles are lazy, so the write
    mutex of a list is taken by the first access; read handles take none. What a
    loop finds next in a list is left open here: it is a choice of the step. */
module Locks {
  import opened Options

  /** The write mutex of a sender's m_connectList, of a receiver's m_possibleSenders,
      and the one mutex of the set of senders being destroyed. */
  datatype Mutex = ConnectList(sender: nat) | PossibleSenders(receiver: nat) | BeingDestroyed

  /** Where a thread is. User is the user's own code, in a slot or not. */
  datatype Pc =
    | User
    | ConnectSender(s: nat, r: nat)        // about to search or to push_back
    | ConnectSearch(s: nat, r: nat)
    | ConnectReceiver(s: nat, r: nat)      // addConnection, about to push onto the other list
    | ConnectPush(s: nat, r: nat)
    | ConnectEnd(s: nat)
    | DisconnectSender(s: nat)             // about to call begin()
    | DisconnectScan(s: nat)
    | DisconnectReceiver(s: nat, r: nat)   // a match, about to call find
    | DisconnectErase(s: nat, r: nat)
    | SenderMark(s: nat)                   // ~SignalBase of a busy sender
    | SenderMarked(s: nat)
    | SenderScan(s: nat)
    | SenderReceiver(s: nat, r: nat)
    | SenderErase(s: nat, r: nat)
    | ReceiverScan(r: nat)                 // ~SlotBase
    | ReceiverSender(r: nat, s: nat)
    | ReceiverErase(r: nat, s: nat)
    | Loop                                 // activate, between two connections
    | SlotEnd                              // the slot came back
    | SlotChecked

  /** depth counts the activations of the thread that are in a slot. */
  datatype Thread = Thread(pc: Pc, depth: nat)

  datatype State = State(held: map<Mutex, nat>, threads: map<nat, Thread>)

  /** What the user's code can begin. */
  datatype Call = Connecting(s: nat, r: nat) | Disconnecting(s: nat) | DestroyingSender(s: nat, busy: bool)
                | DestroyingReceiver(r: nat) | Emitting | Returning

  /** A thread appears; the user's code makes a call or returns from a slot; any other
      code takes its next step, with what it finds next in a list, if anything. */
  datatype Action = Spawn(t: nat) | Start(t: nat, call: Call) | Step(t: nat, found: Option<nat>)

  const Init := State(map[], map[])

  // -------------------------------------------------------------- the machine

  /** The mutex that the next step locks. */
  function Wants(pc: Pc): Option<Mutex> {
    match pc
    case ConnectSender(s, _) => Some(ConnectList(s))
    case ConnectReceiver(_, r) => Some(PossibleSenders(r))
    case DisconnectSender(s) => Some(ConnectList(s))
    case DisconnectReceiver(_, r) => Some(PossibleSenders(r))
    case SenderMark(_) => Some(BeingDestroyed)
    case SenderReceiver(_, r) => Some(PossibleSenders(r))
    case ReceiverSender(_, s) => Some(ConnectList(s))
    case SlotEnd => Some(BeingDestroyed)
    case _ => None
  }

  /** The mutex that the next step unlocks. */
  function Unlocks(pc: Pc, found: Option<nat>): Option<Mutex> {
    match pc
    case ConnectPush(_, r) => Some(PossibleSenders(r))
    case ConnectEnd(s) => Some(ConnectList(s))
    case DisconnectScan(s) => if found.None? then Some(ConnectList(s)) else None
    case DisconnectErase(_, r) => Some(PossibleSenders(r))
    case SenderMarked(_) => Some(BeingDestroyed)
    case SenderErase(_, r) => Some(PossibleSenders(r))
    case ReceiverErase(_, s) => Some(ConnectList(s))
    case SlotChecked => Some(BeingDestroyed)
    case _ => None
  }

  function After(pc: Pc, found: Option<nat>): Pc {
    match pc
    case User => User
    case ConnectSender(s, r) => ConnectSearch(s, r)
    case ConnectSearch(s, r) => if found.Some? then ConnectEnd(s) else ConnectReceiver(s, r)
    case ConnectReceiver(s, r) => ConnectPush(s, r)
    case ConnectPush(s, _) => ConnectEnd(s)
    case ConnectEnd(_) => User
    case DisconnectSender(s) => DisconnectScan(s)
    case DisconnectScan(s) => if found.Some? then DisconnectReceiver(s, found.value) else User
    case DisconnectReceiver(s, r) => DisconnectErase(s, r)
    case DisconnectErase(s, _) => DisconnectScan(s)
    case SenderMark(s) => SenderMarked(s)
    case SenderMarked(s) => SenderScan(s)
    case SenderScan(s) => if found.Some? then SenderReceiver(s, found.value) else User
    case SenderReceiver(s, r) => SenderErase(s, r)
    case SenderErase(s, _) => SenderScan(s)
    case ReceiverScan(r) => if found.Some? then ReceiverSender(r, found.value) else User
    case ReceiverSender(r, s) => ReceiverErase(r, s)
    case ReceiverErase(r, _) => ReceiverScan(r)
    case Loop => User
    case SlotEnd => SlotChecked
    case SlotChecked => if found.Some? then Loop else User
  }

  /** A step that finds a matching connection in an activation enters its slot. */
  function NextThread(th: Thread, found: Option<nat>): Thread {
    Thread(After(th.pc, found), if th.pc.Loop? && found.Some? then th.depth + 1 else th.depth)
  }

  function Started(th: Thread, call: Call): Thread
    requires call.Returning? ==> th.depth > 0
  {
    match call
    case Connecting(s, r) => th.(pc := ConnectSender(s, r))
    case Disconnecting(s) => th.(pc := DisconnectSender(s))
    case DestroyingSender(s, busy) => th.(pc := if busy then SenderMark(s) else SenderScan(s))
    case DestroyingReceiver(r) => th.(pc := ReceiverScan(r))
    case Emitting => th.(pc := Loop)
    case Returning => Thread(SlotEnd, th.depth - 1)
  }

  /** A locking step has to wait until the mutex is free. */
  predicate Enabled(st: State, a: Action) {
    match a
    case Spawn(t) => t !in st.threads
    case Start(t, call) => t in st.threads && st.threads[t].pc.User? && (call.Returning? ==> st.threads[t].depth > 0)
    case Step(t, _) => CanStep(st, t)
  }

  predicate CanStep(st: State, t: nat) {
    t in st.threads && !st.threads[t].pc.User? && (Wants(st.threads[t].pc).Some? ==> Wants(st.threads[t].pc).value !in st.held)
  }

  function Taken(held: map<Mutex, nat>, t: nat, pc: Pc, found: Option<nat>): map<Mutex, nat> {
    if Wants(pc).Some? then held[Wants(pc).value := t]
    else if Unlocks(pc, found).Some? then held - {Unlocks(pc, found).value}
    else held
  }

  function Do(st: State, a: Action): State
    requires Enabled(st, a)
  {
    match a
    case Spawn(t) => st.(threads := st.threads[t := Thread(User, 0)])
    case Start(t, call) => st.(threads := st.threads[t := Started(st.threads[t], call)])
    case Step(t, found) =>
      State(Taken(st.held, t, st.threads[t].pc, found), st.threads[t := NextThread(st.threads[t], found)])
  }

  // -------------------------------------------------------------- the invariant

  /** The mutexes that the code at pc has locked and not unlocked. */
  function Owned(pc: Pc): set<Mutex> {
    match pc
    case ConnectSearch(s, _) => {ConnectList(s)}
    case ConnectReceiver(s, _) => {ConnectList(s)}
    case ConnectPush(s, r) => {ConnectList(s), PossibleSenders(r)}
    case ConnectEnd(s) => {ConnectList(s)}
    case DisconnectScan(s) => {ConnectList(s)}
    case DisconnectReceiver(s, _) => {ConnectList(s)}
    case DisconnectErase(s, r) => {ConnectList(s), PossibleSenders(r)}
    case SenderMarked(_) => {BeingDestroyed}
    case SenderErase(_, r) => {PossibleSenders(r)}
    case ReceiverErase(_, s) => {ConnectList(s)}
    case SlotChecked => {BeingDestroyed}
    case _ => {}
  }

  ghost predicate Inv(st: State) {
    && (forall m :: m in st.held ==> st.held[m] in st.threads)
    && forall t, m :: t in st.threads ==> (m in Owned(st.threads[t].pc) <==> m in st.held && st.held[m] == t)
  }

  lemma OwnedAfter(pc: Pc, found: Option<nat>)
    ensures Wants(pc).Some? ==> Owned(After(pc, found)) == Owned(pc) + {Wants(pc).value}
    ensures Wants(pc).None? && Unlocks(pc, found).Some? ==>
              Unlocks(pc, found).value in Owned(pc) && Owned(After(pc, found)) == Owned(pc) - {Unlocks(pc, found).value}
    ensures !pc.User? && Wants(pc).None? && Unlocks(pc, found).None? ==> Owned(After(pc, found)) == Owned(pc)
  {
  }

  lemma DoInv(st: State, a: Action)
    requires Inv(st) && Enabled(st, a)
    ensures Inv(Do(st, a))
  {
    match a
    case Spawn(_) =>
    case Start(_, _) =>
    case Step(t, found) => StepInv(st, t, found);
  }

  lemma StepInv(st: State, t: nat, found: Option<nat>)
    requires Inv(st) && CanStep(st, t)
    ensures Inv(Do(st, Step(t, found)))
  {
    var pc := st.threads[t].pc;
    OwnedAfter(pc, found);
    MoveInv(st, t, NextThread(st.threads[t], found), Wants(pc), if Wants(pc).None? then Unlocks(pc, found) else None);
  }

  /** Thread t moves on, and locks a free mutex or unlocks one of its own. */
  lemma MoveInv(st: State, t: nat, th: Thread, locks: Option<Mutex>, unlocks: Option<Mutex>)
    requires Inv(st) && t in st.threads && (locks.None? || unlocks.None?)
    requires locks.Some? ==> locks.value !in st.held && Owned(th.pc) == Owned(st.threads[t].pc) + {locks.value}
    requires unlocks.Some? ==> unlocks.value in Owned(st.threads[t].pc) && Owned(th.pc) == Owned(st.threads[t].pc) - {unlocks.value}
    requires locks.None? && unlocks.None? ==> Owned(th.pc) == Owned(st.threads[t].pc)
    ensures Inv(State(if locks.Some? then st.held[locks.value := t] else if unlocks.Some? then st.held - {unlocks.value} else st.held,
                      st.threads[t := th]))
  {
    var held := if locks.Some? then st.held[locks.value := t] else if unlocks.Some? then st.held - {unlocks.value} else st.held;
    var threads := st.threads[t := th];
    if unlocks.Some? { assert unlocks.value in st.held && st.held[unlocks.value] == t; }
    forall u, m | u in threads ensures m in Owned(threads[u].pc) <==> m in held && held[m] == u {
      assert m in Owned(st.threads[u].pc) <==> m in st.held && st.held[m] == u;
    }
  }

  predicate StepAt(tr: seq<State>, acts: seq<Action>, i: nat)
    requires i < |acts| && |tr| == |acts| + 1
  {
    Enabled(tr[i], acts[i]) && tr[i + 1] == Do(tr[i], acts[i])
  }

  predicate IsRun(tr: seq<State>, acts: seq<Action>) {
    && |tr| == |acts| + 1 && tr[0] == Init
    && forall i :: 0 <= i < |acts| ==> StepAt(tr, acts, i)
  }

  lemma {:induction false} RunInv(tr: seq<State>, acts: seq<Action>, i: nat)
    requires IsRun(tr, acts) && i < |tr|
    ensures Inv(tr[i])
  {
    if i > 0 {
      RunInv(tr, acts, i - 1);
      assert StepAt(tr, acts, i - 1);
      DoInv(tr[i - 1], acts[i - 1]);
    }
  }

  // -------------------------------------------------------------- results

  predicate Holds(st: State, t: nat, m: Mutex) {
    m in st.held && st.held[m] == t
  }

  predicate Waits(st: State, t: nat, m: Mutex) {
    t in st.threads && Wants(st.threads[t].pc) == Some(m)
  }

  /** A thread that waits while it holds a mutex holds exactly the mutex of one
      m_connectList and waits for that of an m_possibleSenders; a thread holds at most
      one of each kind, and none in the user's code, in particular in a slot. */
  lemma LockDiscipline(tr: seq<State>, acts: seq<Action>, i: nat, t: nat, h: Mutex)
    requires IsRun(tr, acts) && i < |tr| && t in tr[i].threads && Holds(tr[i], t, h)
    ensures !tr[i].threads[t].pc.User?
    ensures forall m :: Waits(tr[i], t, m) ==> h.ConnectList? && m.PossibleSenders?
    ensures forall m :: Holds(tr[i], t, m) && m != h ==>
              (h.ConnectList? && m.PossibleSenders?) || (h.PossibleSenders? && m.ConnectList?)
  {
    RunInv(tr, acts, i);
    assert h in Owned(tr[i].threads[t].pc);
    forall m | Holds(tr[i], t, m) ensures m in Owned(tr[i].threads[t].pc) {}
  }

  /** The list, or the set, that the next step at pc reads in order to change it, or
      changes. */
  predicate Edits(pc: Pc, m: Mutex) {
    match m
    case ConnectList(s) =>
      || (pc.ConnectSearch? && pc.s == s)       // the search for a duplicate, and push_back
      || (pc.DisconnectScan? && pc.s == s)      // the search for matches
      || (pc.DisconnectErase? && pc.s == s)     // erase of the connection
      || (pc.ReceiverErase? && pc.s == s)       // ~SlotBase: the loop over the sender's list
    case PossibleSenders(r) =>
      || (pc.ConnectPush? && pc.r == r)         // push_back
      || (pc.DisconnectErase? && pc.r == r)     // find and erase
      || (pc.SenderErase? && pc.r == r)         // ~SignalBase: the loop over the receiver's list
    case BeingDestroyed => pc.SenderMarked? || pc.SlotChecked?
  }

  /** Mutual exclusion: what a thread edits it has locked, and no other thread edits. */
  lemma MutualExclusion(tr: seq<State>, acts: seq<Action>, i: nat, t: nat, u: nat, m: Mutex)
    requires IsRun(tr, acts) && i < |tr| && t in tr[i].threads && u in tr[i].threads
    requires Edits(tr[i].threads[t].pc, m)
    ensures Holds(tr[i], t, m) && (Edits(tr[i].threads[u].pc, m) ==> u == t)
  {
    RunInv(tr, acts, i);
    assert m in Owned(tr[i].threads[t].pc);
    if Edits(tr[i].threads[u].pc, m) { assert m in Owned(tr[i].threads[u].pc); }
  }

  /** An activation that finds a matching connection enters its slot, one level deeper,
      with no mutex held; when the slot returns, the thread is as deep as before. */
  lemma SlotsRunUnlocked(tr: seq<State>, acts: seq<Action>, i: nat, t: nat)
    requires IsRun(tr, acts) && i < |acts| && t in tr[i].threads
    ensures acts[i].Step? && acts[i].t == t && tr[i].threads[t].pc.Loop? && acts[i].found.Some? ==>
              && t in tr[i + 1].threads && tr[i + 1].threads[t] == Thread(User, tr[i].threads[t].depth + 1)
              && t !in tr[i + 1].held.Values
    ensures acts[i] == Start(t, Returning) ==>
              t in tr[i + 1].threads && tr[i + 1].threads[t].depth == tr[i].threads[t].depth - 1 && t !in tr[i].held.Values
    ensures t in tr[i + 1].threads && tr[i + 1].threads[t].depth > tr[i].threads[t].depth ==>
              acts[i].Step? && acts[i].t == t && tr[i].threads[t].pc.Loop? && acts[i].found.Some?
  {
    assert StepAt(tr, acts, i);
    RunInv(tr, acts, i);
    RunInv(tr, acts, i + 1);
  }

  /** The thread is held up by another thread of the group. */
  predicate HeldUp(st: State, group: set<nat>, t: nat) {
    && t in st.threads && Wants(st.threads[t].pc).Some?
    && Wants(st.threads[t].pc).value in st.held && st.held[Wants(st.threads[t].pc).value] in group
  }

  /** Whoever a thread waits for can move, or waits for a thread that can. */
  lemma Unblocked(st: State, t: nat) returns (u: nat)
    requires Inv(st) && t in st.threads && !st.threads[t].pc.User?
    ensures CanStep(st, u)
    ensures forall group :: t in group && (forall x :: x in group ==> HeldUp(st, group, x)) ==> u in group
  {
    u := t;
    if !CanStep(st, t) {
      u := Blocker(st, t);
      if !CanStep(st, u) {
        var m := Wants(st.threads[t].pc).value;
        u := Blocker(st, u);
      }
    }
  }

  /** The holder of what t waits for; it waits itself only for an m_possibleSenders,
      and then t waits for an m_connectList. */
  lemma Blocker(st: State, t: nat) returns (u: nat)
    requires Inv(st) && t in st.threads && !st.threads[t].pc.User? && !CanStep(st, t)
    ensures Wants(st.threads[t].pc).Some? && Wants(st.threads[t].pc).value in st.held
    ensures u == st.held[Wants(st.threads[t].pc).value]
    ensures u in st.threads && !st.threads[u].pc.User?
    ensures !CanStep(st, u) ==> Wants(st.threads[t].pc).value.ConnectList? && Wants(st.threads[u].pc).value.PossibleSenders?
  {
    var m := Wants(st.threads[t].pc).value;
    u := st.held[m];
    assert m in Owned(st.threads[u].pc);
  }

  lemma NoGroupHeldUp(st: State, group: set<nat>)
    requires Inv(st) && group != {}
    ensures exists t :: t in group && !HeldUp(st, group, t)
  {
    if forall t :: t in group ==> HeldUp(st, group, t) {
      var t :| t in group;
      assert HeldUp(st, group, t);
      var u := Unblocked(st, t);
      assert HeldUp(st, group, u);
    }
  }

  /** Deadlock freedom: no group of threads waits for each other. */
  lemma NoCyclicWait(tr: seq<State>, acts: seq<Action>, i: nat, group: set<nat>)
    requires IsRun(tr, acts) && i < |tr| && group != {}
    ensures exists t :: t in group && !HeldUp(tr[i], group, t)
  {
    RunInv(tr, acts, i);
    NoGroupHeldUp(tr[i], group);
  }

  /** As long as some thread is inside the library, one of these can take a step. */
  lemma Progress(tr: seq<State>, acts: seq<Action>, i: nat, t: nat) returns (u: nat)
    requires IsRun(tr, acts) && i < |tr| && t in tr[i].threads && !tr[i].threads[t].pc.User?
    ensures u in tr[i].threads && !tr[i].threads[u].pc.User? && forall found :: Enabled(tr[i], Step(u, found))
  {
    RunInv(tr, acts, i);
    u := Unblocked(tr[i], t);
  }
}
