/** The two-sided registry when any number of threads connect and disconnect at once.
    Locks says who may go on; here each thread also changes the two lists, one of them
    at a time. A sender's list is given by the receivers of its connections, in order;
    which connections a disconnect matches, and whether a connect finds a duplicate,
    is left open. */
module RegistryThreads {
  import opened Options
  import opened Counting
  import Locks

  /** What a thread has changed since it took its last step in Locks, and where in the
      sender's list its iterator stands. */
  datatype Work = Work(phase: nat, at: nat)

  /** bad records a find that fails, or an iterator that is not in the list. */
  datatype State = State(locks: Locks.State, lists: map<nat, seq<nat>>, possible: map<nat, seq<nat>>, work: map<nat, Work>, bad: bool)

  datatype Action =
    | NewSender(s: nat)
    | NewReceiver(r: nat)
    | Step(a: Locks.Action, at: nat)     // a step of Locks; at is the match that it finds
    | Change(t: nat)                     // one change to one list, under its mutex

  const Init := State(Locks.Init, map[], map[], map[], false)

  // -------------------------------------------------------------- the machine

  function WorkOf(st: State, t: nat): Work {
    if t in st.work then st.work[t] else Work(0, 0)
  }

  predicate Allowed(st: State, a: Locks.Action, at: nat)
    requires Locks.Enabled(st.locks, a)
  {
    match a
    case Spawn(_) => true
    case Start(_, call) =>
      (match call
       case Connecting(s, r) => s in st.lists && r in st.possible
       case Disconnecting(s) => s in st.lists
       case DestroyingSender(_, _) => false
       case DestroyingReceiver(_) => false
       case _ => true)
    case Step(t, found) =>
      (match st.locks.threads[t].pc
       case DisconnectScan(s) => found.Some? ==> s in st.lists && at < |st.lists[s]| && st.lists[s][at] == found.value
       case ConnectPush(_, _) => WorkOf(st, t).phase == 1
       case DisconnectErase(_, _) => WorkOf(st, t).phase == 2
       case _ => true)
  }

  /** The thread has list changes to make before it unlocks the receiver's list. */
  predicate Working(st: State, t: nat) {
    && t in st.locks.threads
    && match st.locks.threads[t].pc
       case ConnectPush(s, r) => WorkOf(st, t).phase == 0 && s in st.lists && r in st.possible
       case DisconnectErase(s, r) => WorkOf(st, t).phase < 2 && s in st.lists && r in st.possible
       case _ => false
  }

  predicate Enabled(st: State, a: Action) {
    match a
    case NewSender(s) => s !in st.lists
    case NewReceiver(r) => r !in st.possible
    case Step(b, at) => Locks.Enabled(st.locks, b) && Allowed(st, b, at)
    case Change(t) => Working(st, t)
  }

  /** addConnection pushes onto the sender's list before it asks for the receiver's. */
  function Pushed(st: State, a: Locks.Action): map<nat, seq<nat>>
    requires Locks.Enabled(st.locks, a)
  {
    if a.Step? && st.locks.threads[a.t].pc.ConnectSearch? && a.found.None? && st.locks.threads[a.t].pc.s in st.lists then
      st.lists[st.locks.threads[a.t].pc.s := st.lists[st.locks.threads[a.t].pc.s] + [st.locks.threads[a.t].pc.r]]
    else st.lists
  }

  function NextWork(st: State, a: Locks.Action, at: nat): map<nat, Work>
    requires Locks.Enabled(st.locks, a)
  {
    if a.Step? then
      st.work[a.t := Work(0, if st.locks.threads[a.t].pc.DisconnectScan? then at else WorkOf(st, a.t).at)]
    else st.work
  }

  /** find. */
  function FirstOf(q: seq<nat>, x: nat): nat {
    if q == [] || q[0] == x then 0 else 1 + FirstOf(q[1..], x)
  }

  function Changed(st: State, t: nat): State
    requires Working(st, t)
  {
    var w := WorkOf(st, t);
    match st.locks.threads[t].pc
    case ConnectPush(s, r) => st.(possible := st.possible[r := st.possible[r] + [s]], work := st.work[t := Work(1, w.at)])
    case DisconnectErase(s, r) =>
      if w.phase == 0 then
        var k := FirstOf(st.possible[r], s);
        if k < |st.possible[r]| then st.(possible := st.possible[r := CutAt(st.possible[r], k)], work := st.work[t := Work(1, w.at)])
        else st.(bad := true)
      else if w.at < |st.lists[s]| then st.(lists := st.lists[s := CutAt(st.lists[s], w.at)], work := st.work[t := Work(2, w.at)])
      else st.(bad := true)
  }

  function Do(st: State, a: Action): State
    requires Enabled(st, a)
  {
    match a
    case NewSender(s) => st.(lists := st.lists[s := []])
    case NewReceiver(r) => st.(possible := st.possible[r := []])
    case Step(b, at) => st.(locks := Locks.Do(st.locks, b), lists := Pushed(st, b), work := NextWork(st, b, at))
    case Change(t) => Changed(st, t)
  }

  // -------------------------------------------------------------- the invariant

  /** By how many connections from s to r the sender's side is ahead while a thread at
      pc is in the middle of an operation. */
  function GapOf(pc: Locks.Pc, phase: nat, s: nat, r: nat): nat {
    match pc
    case ConnectReceiver(x, y) => if x == s && y == r then 1 else 0
    case ConnectPush(x, y) => if x == s && y == r && phase == 0 then 1 else 0
    case DisconnectErase(x, y) => if x == s && y == r && phase == 1 then 1 else 0
    case _ => 0
  }

  /** Only the holder of the sender's mutex can be in the middle of an operation on it. */
  function Gap(st: State, s: nat, r: nat): nat {
    if Locks.ConnectList(s) in st.locks.held && st.locks.held[Locks.ConnectList(s)] in st.locks.threads then
      var t := st.locks.held[Locks.ConnectList(s)];
      GapOf(st.locks.threads[t].pc, WorkOf(st, t).phase, s, r)
    else 0
  }

  predicate PairOk(st: State, s: nat, r: nat)
    requires s in st.lists && r in st.possible
  {
    CountOf(st.lists[s], r) == CountOf(st.possible[r], s) + Gap(st, s, r)
  }

  predicate ThreadOk(st: State, t: nat)
    requires t in st.locks.threads
  {
    var w := WorkOf(st, t);
    match st.locks.threads[t].pc
    case ConnectSender(s, r) => s in st.lists && r in st.possible
    case ConnectSearch(s, r) => s in st.lists && r in st.possible
    case ConnectReceiver(s, r) => s in st.lists && r in st.possible
    case ConnectPush(s, r) => s in st.lists && r in st.possible && w.phase <= 1
    case DisconnectSender(s) => s in st.lists
    case DisconnectScan(s) => s in st.lists
    case DisconnectReceiver(s, r) => s in st.lists && r in st.possible && w.at < |st.lists[s]| && st.lists[s][w.at] == r
    case DisconnectErase(s, r) =>
      && s in st.lists && r in st.possible && w.phase <= 2
      && (w.phase < 2 ==> w.at < |st.lists[s]| && st.lists[s][w.at] == r)
    case SenderMark(_) => false
    case SenderMarked(_) => false
    case SenderScan(_) => false
    case SenderReceiver(_, _) => false
    case SenderErase(_, _) => false
    case ReceiverScan(_) => false
    case ReceiverSender(_, _) => false
    case ReceiverErase(_, _) => false
    case _ => true
  }

  ghost predicate NamesOk(st: State) {
    && (forall s, r :: s in st.lists && r in st.lists[s] ==> r in st.possible)
    && (forall r, s :: r in st.possible && s in st.possible[r] ==> s in st.lists)
  }

  ghost predicate Inv(st: State) {
    && !st.bad && Locks.Inv(st.locks) && NamesOk(st)
    && (forall t :: t in st.locks.threads ==> ThreadOk(st, t))
    && (forall s, r :: s in st.lists && r in st.possible ==> PairOk(st, s, r))
  }

  // -------------------------------------------------------------- proofs

  lemma {:induction false} FirstOfIs(q: seq<nat>, x: nat)
    ensures FirstOf(q, x) <= |q| && (FirstOf(q, x) < |q| <==> x in q)
    ensures FirstOf(q, x) < |q| ==> q[FirstOf(q, x)] == x && forall j :: 0 <= j < FirstOf(q, x) ==> q[j] != x
  {
    if q != [] && q[0] != x {
      FirstOfIs(q[1..], x);
      assert forall j :: 0 < j < |q| ==> q[j] == q[1..][j - 1];
    }
  }

  /** Two threads do not hold the mutex of the same sender. */
  lemma HolderIs(st: State, t: nat, s: nat)
    requires Locks.Inv(st.locks) && t in st.locks.threads
    ensures Locks.ConnectList(s) in Locks.Owned(st.locks.threads[t].pc) <==>
              Locks.ConnectList(s) in st.locks.held && st.locks.held[Locks.ConnectList(s)] == t
  {
  }

  lemma NewSenderInv(st: State, s: nat)
    requires Inv(st) && s !in st.lists
    ensures Inv(Do(st, NewSender(s)))
  {
    var after := Do(st, NewSender(s));
    forall x, r | x in after.lists && r in after.possible ensures PairOk(after, x, r) {
      if x == s {
        CountOfPositive(st.possible[r], s);
        NoGap(st, s, r);
      } else {
        assert PairOk(st, x, r);
      }
    }
    forall t | t in after.locks.threads ensures ThreadOk(after, t) { assert ThreadOk(st, t); }
  }

  /** A thread that holds the mutex of a sender works on a sender that exists. */
  lemma NoGap(st: State, s: nat, r: nat)
    requires Locks.Inv(st.locks) && (forall t :: t in st.locks.threads ==> ThreadOk(st, t)) && (s !in st.lists || r !in st.possible)
    ensures Gap(st, s, r) == 0
  {
    if Locks.ConnectList(s) in st.locks.held {
      var t := st.locks.held[Locks.ConnectList(s)];
      if t in st.locks.threads { assert ThreadOk(st, t); }
    }
  }

  lemma NewReceiverInv(st: State, r: nat)
    requires Inv(st) && r !in st.possible
    ensures Inv(Do(st, NewReceiver(r)))
  {
    var after := Do(st, NewReceiver(r));
    forall s, x | s in after.lists && x in after.possible ensures PairOk(after, s, x) {
      if x == r {
        CountOfPositive(st.lists[s], r);
        NoGap(st, s, r);
      } else {
        assert PairOk(st, s, x);
      }
    }
    forall t | t in after.locks.threads ensures ThreadOk(after, t) { assert ThreadOk(st, t); }
  }

  /** The step of Locks after which the sender's side is one connection ahead. */
  predicate Pushes(st: State, a: Locks.Action, s: nat, r: nat) {
    a.Step? && a.found.None? && a.t in st.locks.threads && st.locks.threads[a.t].pc == Locks.ConnectSearch(s, r)
  }

  lemma StepGap(st: State, a: Locks.Action, at: nat, s: nat, r: nat)
    requires Locks.Inv(st.locks) && (forall t :: t in st.locks.threads ==> ThreadOk(st, t))
    requires Enabled(st, Step(a, at)) && Locks.Inv(Locks.Do(st.locks, a))
    ensures Gap(Do(st, Step(a, at)), s, r) == Gap(st, s, r) + if Pushes(st, a, s, r) then 1 else 0
  {
    if a.Step? { OwnStepGap(st, a, at, s, r); }
  }

  lemma OwnStepGap(st: State, a: Locks.Action, at: nat, s: nat, r: nat)
    requires Locks.Inv(st.locks) && a.Step? && Enabled(st, Step(a, at)) && ThreadOk(st, a.t) && Locks.Inv(Locks.Do(st.locks, a))
    ensures Gap(Do(st, Step(a, at)), s, r) == Gap(st, s, r) + if Pushes(st, a, s, r) then 1 else 0
  {
    HolderIs(st, a.t, s);
    HolderIs(Do(st, Step(a, at)), a.t, s);
    Locks.OwnedAfter(st.locks.threads[a.t].pc, a.found);
  }

  lemma StepThread(st: State, a: Locks.Action, at: nat, t: nat)
    requires Locks.Inv(st.locks) && Enabled(st, Step(a, at)) && t in Locks.Do(st.locks, a).threads && NamesOk(st)
    requires t in st.locks.threads ==> ThreadOk(st, t)
    requires a.Step? ==> ThreadOk(st, a.t)
    ensures ThreadOk(Do(st, Step(a, at)), t)
  {
    if a.Step? && t != a.t {
      ListUnderLock(st, a, at, t);
    }
  }

  /** A step of another thread does not cut the list under an iterator. */
  lemma ListUnderLock(st: State, a: Locks.Action, at: nat, t: nat)
    requires a.Step? && Enabled(st, Step(a, at)) && t in st.locks.threads && t != a.t && ThreadOk(st, t)
    ensures ThreadOk(Do(st, Step(a, at)), t)
  {
  }

  lemma StepPair(st: State, a: Locks.Action, at: nat, s: nat, r: nat)
    requires Inv(st) && Enabled(st, Step(a, at)) && Locks.Inv(Locks.Do(st.locks, a)) && s in st.lists && r in st.possible
    ensures PairOk(Do(st, Step(a, at)), s, r)
  {
    assert PairOk(st, s, r);
    StepGap(st, a, at, s, r);
    if a.Step? && a.found.None? && st.locks.threads[a.t].pc.ConnectSearch? && st.locks.threads[a.t].pc.s == s {
      CountOfAppend(st.lists[s], [st.locks.threads[a.t].pc.r], r);
    }
  }

  lemma StepInv(st: State, a: Locks.Action, at: nat)
    requires Inv(st) && Enabled(st, Step(a, at))
    ensures Inv(Do(st, Step(a, at)))
  {
    var after := Do(st, Step(a, at));
    Locks.DoInv(st.locks, a);
    forall s, r | s in after.lists && r in after.possible ensures PairOk(after, s, r) { StepPair(st, a, at, s, r); }
    forall t | t in after.locks.threads ensures ThreadOk(after, t) { StepThread(st, a, at, t); }
    StepNames(st, a, at);
  }

  lemma StepNames(st: State, a: Locks.Action, at: nat)
    requires NamesOk(st) && Enabled(st, Step(a, at)) && (a.Step? ==> ThreadOk(st, a.t))
    ensures NamesOk(Do(st, Step(a, at)))
  {
  }

  /** The working thread holds the mutex of its sender. */
  lemma WorkerHolds(st: State, t: nat)
    requires Locks.Inv(st.locks) && Working(st, t)
    ensures var pc := st.locks.threads[t].pc;
            && (pc.ConnectPush? || pc.DisconnectErase?)
            && Locks.ConnectList(pc.s) in st.locks.held && st.locks.held[Locks.ConnectList(pc.s)] == t
  {
    HolderIs(st, t, st.locks.threads[t].pc.s);
  }

  /** Another sender is none of the working thread's business. */
  lemma ChangeGap(st: State, t: nat, s: nat, r: nat)
    requires Locks.Inv(st.locks) && Working(st, t)
    ensures st.locks.threads[t].pc.s != s ==> Gap(Changed(st, t), s, r) == Gap(st, s, r)
    ensures st.locks.threads[t].pc.s == s ==>
              && Gap(st, s, r) == GapOf(st.locks.threads[t].pc, WorkOf(st, t).phase, s, r)
              && Gap(Changed(st, t), s, r) == GapOf(st.locks.threads[t].pc, WorkOf(Changed(st, t), t).phase, s, r)
  {
    WorkerHolds(st, t);
    HolderIs(st, t, s);
  }

  /** The find of disconnect succeeds: the sender's list holds the connection, and the
      receiver's side has not lost it yet. */
  lemma FindSucceeds(st: State, t: nat)
    requires Inv(st) && Working(st, t) && st.locks.threads[t].pc.DisconnectErase? && WorkOf(st, t).phase == 0
    ensures var pc := st.locks.threads[t].pc;
            pc.s in st.possible[pc.r] && FirstOf(st.possible[pc.r], pc.s) < |st.possible[pc.r]|
  {
    var pc := st.locks.threads[t].pc;
    assert ThreadOk(st, t) && PairOk(st, pc.s, pc.r);
    ChangeGap(st, t, pc.s, pc.r);
    CountOfPositive(st.lists[pc.s], pc.r);
    CountOfPositive(st.possible[pc.r], pc.s);
    FirstOfIs(st.possible[pc.r], pc.s);
  }

  lemma ChangePair(st: State, t: nat, s: nat, r: nat)
    requires Inv(st) && Working(st, t) && !Changed(st, t).bad && s in st.lists && r in st.possible
    ensures PairOk(Changed(st, t), s, r)
  {
    assert PairOk(st, s, r) && ThreadOk(st, t);
    ChangeGap(st, t, s, r);
    var pc, w := st.locks.threads[t].pc, WorkOf(st, t);
    if pc.ConnectPush? {
      CountOfAppend(st.possible[pc.r], [pc.s], s);
    } else if w.phase == 0 {
      FirstOfIs(st.possible[pc.r], pc.s);
      CountOfCut(st.possible[pc.r], FirstOf(st.possible[pc.r], pc.s), s);
    } else {
      CountOfCut(st.lists[pc.s], w.at, r);
    }
  }

  lemma ChangeThread(st: State, t: nat, u: nat)
    requires Locks.Inv(st.locks) && Working(st, t) && ThreadOk(st, t) && u in st.locks.threads && ThreadOk(st, u)
    ensures ThreadOk(Changed(st, t), u)
  {
    if u != t {
      WorkerHolds(st, t);
      HolderIs(st, u, st.locks.threads[t].pc.s);
    }
  }

  lemma ChangeInv(st: State, t: nat)
    requires Inv(st) && Working(st, t)
    ensures Inv(Changed(st, t))
  {
    var after := Changed(st, t);
    assert ThreadOk(st, t);
    if st.locks.threads[t].pc.DisconnectErase? && WorkOf(st, t).phase == 0 { FindSucceeds(st, t); }
    forall s, r | s in after.lists && r in after.possible ensures PairOk(after, s, r) { ChangePair(st, t, s, r); }
    forall u | u in after.locks.threads ensures ThreadOk(after, u) { ChangeThread(st, t, u); }
  }

  lemma DoInv(st: State, a: Action)
    requires Inv(st) && Enabled(st, a)
    ensures Inv(Do(st, a))
  {
    match a
    case NewSender(s) => NewSenderInv(st, s);
    case NewReceiver(r) => NewReceiverInv(st, r);
    case Step(b, at) => StepInv(st, b, at);
    case Change(t) => ChangeInv(st, t);
  }

  // -------------------------------------------------------------- results

  predicate StepAt(tr: seq<State>, acts: seq<Action>, i: nat)
    requires i < |acts| && |tr| == |acts| + 1
  {
    Enabled(tr[i], acts[i]) && tr[i + 1] == Do(tr[i], acts[i])
  }

  predicate IsRun(tr: seq<State>, acts: seq<Action>) {
    && |tr| == |acts| + 1 && tr[0] == Init
    && forall i :: 0 <= i < |acts| ==> StepAt(tr, acts, i)
  }

  lemma {:induction false} RunInv(tr: seq<State>, acts: seq<Action>, i: nat)
    requires IsRun(tr, acts) && i < |tr|
    ensures Inv(tr[i])
  {
    if i > 0 {
      RunInv(tr, acts, i - 1);
      assert StepAt(tr, acts, i - 1);
      DoInv(tr[i - 1], acts[i - 1]);
    }
  }

  /** Whenever the mutex of a sender's list is free, both sides agree on the number of
      its connections to every receiver, whatever other senders' threads are doing. */
  lemma AgreesWhenFree(tr: seq<State>, acts: seq<Action>, i: nat, s: nat)
    requires IsRun(tr, acts) && i < |tr| && s in tr[i].lists && Locks.ConnectList(s) !in tr[i].locks.held
    ensures forall r :: r in tr[i].possible ==> CountOf(tr[i].lists[s], r) == CountOf(tr[i].possible[r], s)
    ensures forall r :: r in tr[i].lists[s] ==> r in tr[i].possible && s in tr[i].possible[r]
  {
    RunInv(tr, acts, i);
    forall r | r in tr[i].possible ensures CountOf(tr[i].lists[s], r) == CountOf(tr[i].possible[r], s) { assert PairOk(tr[i], s, r); }
    forall r | r in tr[i].lists[s] ensures r in tr[i].possible && s in tr[i].possible[r] {
      CountOfPositive(tr[i].lists[s], r);
      CountOfPositive(tr[i].possible[r], s);
    }
  }

  /** While it is held, the sender's side is ahead by at most one connection, to one
      receiver. */
  lemma AtMostOneAhead(tr: seq<State>, acts: seq<Action>, i: nat, s: nat, r: nat, x: nat)
    requires IsRun(tr, acts) && i < |tr| && s in tr[i].lists && r in tr[i].possible && x in tr[i].possible
    ensures CountOf(tr[i].possible[r], s) <= CountOf(tr[i].lists[s], r) <= CountOf(tr[i].possible[r], s) + 1
    ensures CountOf(tr[i].lists[s], r) > CountOf(tr[i].possible[r], s) && CountOf(tr[i].lists[s], x) > CountOf(tr[i].possible[x], s) ==> r == x
  {
    RunInv(tr, acts, i);
    assert PairOk(tr[i], s, r) && PairOk(tr[i], s, x);
  }

  /** No find in a disconnect ever fails: a thread that is about to take the sender out
      of a receiver's list finds it there; and no iterator is ever outside its list. */
  lemma FindNeverFails(tr: seq<State>, acts: seq<Action>, i: nat, t: nat)
    requires IsRun(tr, acts) && i < |tr|
    requires Working(tr[i], t) && tr[i].locks.threads[t].pc.DisconnectErase?
    ensures var pc, w := tr[i].locks.threads[t].pc, WorkOf(tr[i], t);
            && !tr[i].bad
            && (w.phase == 0 ==> pc.s in tr[i].possible[pc.r])
            && w.at < |tr[i].lists[pc.s]| && tr[i].lists[pc.s][w.at] == pc.r
  {
    RunInv(tr, acts, i);
    assert ThreadOk(tr[i], t);
    if WorkOf(tr[i], t).phase == 0 { FindSucceeds(tr[i], t); }
  }

  /** A sender's list changes only while the thread that changes it holds its mutex: it
      gets one connection more at the end, or loses the one its iterator stands on. */
  lemma SenderListChanges(tr: seq<State>, acts: seq<Action>, i: nat, s: nat)
    requires IsRun(tr, acts) && i < |acts| && s in tr[i].lists
    ensures s in tr[i + 1].lists
    ensures tr[i + 1].lists[s] != tr[i].lists[s] ==>
              exists t :: t in tr[i].locks.threads && Locks.Holds(tr[i].locks, t, Locks.ConnectList(s))
                && Rewrites(tr[i].locks.threads[t].pc, WorkOf(tr[i], t), s, tr[i].lists[s], tr[i + 1].lists[s])
  {
    RunInv(tr, acts, i);
    assert StepAt(tr, acts, i);
    if tr[i + 1].lists[s] != tr[i].lists[s] {
      var t := if acts[i].Change? then acts[i].t else acts[i].a.t;
      assert ThreadOk(tr[i], t);
      HolderIs(tr[i], t, s);
    }
  }

  predicate Rewrites(pc: Locks.Pc, w: Work, s: nat, q: seq<nat>, r: seq<nat>) {
    || (pc.ConnectSearch? && pc.s == s && r == q + [pc.r])
    || (pc.DisconnectErase? && pc.s == s && w.at < |q| && q[w.at] == pc.r && r == q[..w.at] + q[w.at + 1..])
  }

  /** A receiver's list changes only while the thread that changes it holds its mutex:
      it gets the sender at the end, or loses the first mention of it. */
  lemma ReceiverListChanges(tr: seq<State>, acts: seq<Action>, i: nat, r: nat)
    requires IsRun(tr, acts) && i < |acts| && r in tr[i].possible
    ensures r in tr[i + 1].possible
    ensures tr[i + 1].possible[r] != tr[i].possible[r] ==>
              exists t :: t in tr[i].locks.threads && Locks.Holds(tr[i].locks, t, Locks.PossibleSenders(r))
                && Mentions(tr[i].locks.threads[t].pc, r, tr[i].possible[r], tr[i + 1].possible[r])
  {
    RunInv(tr, acts, i);
    assert StepAt(tr, acts, i);
    if tr[i + 1].possible[r] != tr[i].possible[r] {
      var t := acts[i].t;
      assert Locks.PossibleSenders(r) in Locks.Owned(tr[i].locks.threads[t].pc);
      FirstOfIs(tr[i].possible[r], tr[i].locks.threads[t].pc.s);
    }
  }

  ghost predicate Mentions(pc: Locks.Pc, r: nat, q: seq<nat>, p: seq<nat>) {
    || (pc.ConnectPush? && pc.r == r && p == q + [pc.s])
    || (pc.DisconnectErase? && pc.r == r
        && exists k :: 0 <= k < |q| && q[k] == pc.s && pc.s !in q[..k] && p == q[..k] + q[k + 1..])
  }

  /** Threads do not block each other for good: as long as one is inside the library,
      some thread inside it can take a step or make its next change. */
  lemma Progress(tr: seq<State>, acts: seq<Action>, i: nat, t: nat) returns (u: nat, a: Action)
    requires IsRun(tr, acts) && i < |tr| && t in tr[i].locks.threads && !tr[i].locks.threads[t].pc.User?
    ensures u in tr[i].locks.threads && !tr[i].locks.threads[u].pc.User? && Enabled(tr[i], a)
    ensures a == Change(u) || a == Step(Locks.Step(u, None), 0)
  {
    RunInv(tr, acts, i);
    u := Locks.Unblocked(tr[i].locks, t);
    assert ThreadOk(tr[i], u);
    a := if Working(tr[i], u) then Change(u) else Step(Locks.Step(u, None), 0);
  }
}
