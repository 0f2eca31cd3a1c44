/** Emitting signals on one thread. A slot runs in the middle of the traversal of
    the sender's connections and may do anything: connect, disconnect, emit again,
    destroy the sender, return or throw. Other threads may connect and disconnect at
    any time. Every activation that is still running is a frame on a stack; what may
    happen next is an action.

    A sender's connections are the list that RcuTraversal shows to every reader: the
    listed nodes, oldest first because connections are only pushed at the back, and
    for every erased node the next pointer it was erased with. A clock counts the
    changes of the list; a node is named by the time at which it was pushed. */
module Emission {
  import opened Dispatch

  /** What an erased node remembers: its frozen next, and when it was erased. */
  datatype Erased = Erased(next: nat, gone: nat)

  datatype Sender = Sender(busy: nat, signals: map<nat, Bento>, list: seq<nat>, erased: map<nat, Erased>, clock: nat)

  /** One running activate(): its local variables, when it began by the clock of its
      sender, and the connections it has delivered to. The address of its Bento object
      is sig, 0 stands for null. */
  datatype Frame = Frame(sender: nat, signal: Bento, sig: nat, priorSender: nat, priorSig: nat, cursor: nat,
                         inSlot: bool, oldBusy: nat, threw: bool, begun: nat, delivered: seq<nat>)

  /** bad records a use of a sender, or of a node, that no longer exists. */
  datatype State = State(senders: map<nat, Sender>, beingDestroyed: set<nat>, currentSender: nat, currentSignal: nat,
                         stack: seq<Frame>, nextSig: nat, bad: bool)

  datatype Action =
    | Create(sender: nat)
    | Connect(sender: nat, signal: Bento)
    | Erase(sender: nat, id: nat)
    | Destroy(sender: nat)
    | Emit(sender: nat, signal: Bento)
    | Advance
    | Return
    | Throw

  const Init := State(map[], {}, 0, 0, [], 1, false)

  // -------------------------------------------------------------- the list

  /** The oldest listed connection younger than x, or 0. */
  function After(list: seq<nat>, x: nat): nat {
    if list == [] then 0 else if list[0] > x then list[0] else After(list[1..], x)
  }

  function Without(list: seq<nat>, x: nat): seq<nat> {
    if list == [] then [] else if list[0] == x then list[1..] else [list[0]] + Without(list[1..], x)
  }

  /** operator++ of a traversal at node x. */
  function Next(s: Sender, x: nat): nat {
    if x in s.erased then s.erased[x].next else After(s.list, x)
  }

  function PushBack(s: Sender, signal: Bento): Sender {
    s.(signals := s.signals[s.clock := signal], list := s.list + [s.clock], clock := s.clock + 1)
  }

  function EraseNode(s: Sender, id: nat): Sender {
    s.(list := Without(s.list, id), erased := s.erased[id := Erased(After(s.list, id), s.clock)], clock := s.clock + 1)
  }

  // -------------------------------------------------------------- activate

  function Top(st: State): Frame
    requires st.stack != []
  {
    st.stack[|st.stack| - 1]
  }

  function Below(st: State): seq<Frame>
    requires st.stack != []
  {
    st.stack[..|st.stack| - 1]
  }

  function SetTop(st: State, f: Frame): State
    requires st.stack != []
  {
    st.(stack := Below(st) + [f])
  }

  /** Up to the beginning of the loop. */
  function Begin(st: State, sender: nat, signal: Bento): State {
    if sender !in st.senders then st.(bad := true)
    else
      var s := st.senders[sender];
      var f := Frame(sender, signal, st.nextSig, st.currentSender, st.currentSignal, After(s.list, 0), false, 0, false, s.clock, []);
      st.(currentSender := sender, currentSignal := st.nextSig, stack := st.stack + [f], nextSig := st.nextSig + 1)
  }

  function Restore(st: State): State
    requires st.stack != []
  {
    st.(currentSender := Top(st).priorSender, currentSignal := Top(st).priorSig)
  }

  function Pop(st: State): State
    requires st.stack != []
  {
    st.(stack := Below(st))
  }

  /** The head of the loop: it ends, skips a connection to another signal, or counts
      itself busy and calls the slot. */
  function Loop(st: State): State
    requires st.stack != []
  {
    var f := Top(st);
    if f.sender !in st.senders then st.(bad := true)
    else
      var s := st.senders[f.sender];
      if f.cursor == 0 then Pop(Restore(st))
      else if f.cursor !in s.signals then st.(bad := true)
      else if !s.signals[f.cursor].Same(f.signal) then SetTop(st, f.(cursor := Next(s, f.cursor)))
      else
        SetTop(st, f.(inSlot := true, oldBusy := s.busy, delivered := f.delivered + [f.cursor]))
          .(senders := st.senders[f.sender := s.(busy := s.busy + 1)])
  }

  /** A slot destroyed the sender: the outermost activation removes it from the set. */
  function Leave(st: State): State
    requires st.stack != []
  {
    var f := Top(st);
    Pop(st.(beingDestroyed := if f.oldBusy == 0 then st.beingDestroyed - {f.sender} else st.beingDestroyed))
  }

  /** The end of the loop body, and the step to the next connection. */
  function Resume(st: State): State
    requires st.stack != []
  {
    var f := Top(st);
    if f.sender !in st.senders || st.senders[f.sender].busy == 0 then st.(bad := true)
    else
      var s := st.senders[f.sender];
      SetTop(st, f.(inSlot := false, cursor := Next(s, f.cursor))).(senders := st.senders[f.sender := s.(busy := s.busy - 1)])
  }

  function AfterReturn(st: State): State
    requires st.stack != []
  {
    if Top(st).sender in st.beingDestroyed then Leave(Restore(st)) else Resume(st)
  }

  /** The catch clause: handleException is called between the two assignments to the
      current sender, and comes back. The current signal stays restored. */
  function AfterThrow(st: State): State
    requires st.stack != []
  {
    var restored := Restore(st);
    if Top(st).sender in st.beingDestroyed then Leave(restored)
    else Resume(SetTop(restored.(currentSender := Top(st).sender), Top(st).(threw := true)))
  }

  // -------------------------------------------------------------- the machine

  /** ~SignalBase, as far as an activation can see it. */
  function Destroyed(st: State, sender: nat): State {
    if sender !in st.senders then st.(bad := true)
    else
      st.(beingDestroyed := if st.senders[sender].busy > 0 then st.beingDestroyed + {sender} else st.beingDestroyed,
          senders := st.senders - {sender})
  }

  /** The user's code runs outside of every activation or in a slot of the last one.
      It uses only senders that exist, and no new sender takes the place of one that
      still has an activation to return from. Erase is one step of disconnect or of
      the destructor of a receiver. Connect and Erase may come from other threads, and
      so at any time. */
  predicate Enabled(st: State, a: Action) {
    match a
    case Advance => st.stack != [] && !Top(st).inSlot
    case Return => st.stack != [] && Top(st).inSlot
    case Throw => st.stack != [] && Top(st).inSlot
    case Connect(s, _) => s in st.senders
    case Erase(s, id) => s in st.senders && id in st.senders[s].list
    case Create(s) => UserCode(st) && s != 0 && s !in st.senders && forall k :: 0 <= k < |st.stack| ==> st.stack[k].sender != s
    case Destroy(s) => UserCode(st) && s in st.senders
    case Emit(s, _) => UserCode(st) && s in st.senders
  }

  predicate UserCode(st: State) {
    st.stack == [] || Top(st).inSlot
  }

  function Do(st: State, a: Action): State
    requires Enabled(st, a)
  {
    match a
    case Create(s) => st.(senders := st.senders[s := Sender(0, map[], [], map[], 1)])
    case Connect(s, signal) => st.(senders := st.senders[s := PushBack(st.senders[s], signal)])
    case Erase(s, id) => st.(senders := st.senders[s := EraseNode(st.senders[s], id)])
    case Destroy(s) => Destroyed(st, s)
    case Emit(s, signal) => Begin(st, s, signal)
    case Advance => Loop(st)
    case Return => AfterReturn(st)
    case Throw => AfterThrow(st)
  }

  // -------------------------------------------------------------- the invariant

  predicate Increasing(q: seq<nat>) {
    forall i, j :: 0 <= i < j < |q| ==> q[i] < q[j]
  }

  /** A frozen next skips no node that is listed now and was listed then, and it leads
      to a node that is listed or was erased later. */
  predicate FrozenOk(s: Sender, x: nat)
    requires x in s.erased
  {
    var e := s.erased[x];
    && 0 < x < s.clock && x in s.signals && e.gone < s.clock
    && (forall y :: y in s.list && y > x ==> y >= if e.next == 0 then e.gone else e.next)
    && (e.next != 0 ==> e.next > x && Since(s, e.next, e.gone))
  }

  /** x is listed, or was erased at time t or later. */
  predicate Since(s: Sender, x: nat, t: nat) {
    x in s.signals && (x in s.list || (x in s.erased && s.erased[x].gone >= t))
  }

  predicate SenderOk(s: Sender) {
    && Increasing(s.list) && s.clock > 0
    && (forall x :: x in s.list ==> 0 < x < s.clock && x in s.signals && x !in s.erased)
    && (forall x :: x in s.signals ==> x < s.clock)
    && (forall x :: x in s.erased ==> FrozenOk(s, x))
  }

  predicate Matching(s: Sender, f: Frame, x: nat) {
    x in s.signals && s.signals[x].Same(f.signal)
  }

  /** How far the traversal has come: it has dealt with x. */
  predicate Passed(f: Frame, x: nat) {
    f.cursor == 0 || x < f.cursor || (f.inSlot && x == f.cursor)
  }

  /** Traversal and deliveries of an activation of a living sender. */
  predicate WalkOk(s: Sender, f: Frame) {
    && f.begun <= s.clock
    && (f.cursor != 0 ==> Since(s, f.cursor, f.begun))
    && (f.inSlot ==> f.cursor != 0)
    && (forall x :: x in s.list && x < f.begun && Passed(f, x) && Matching(s, f, x) ==> x in f.delivered)
    && Increasing(f.delivered)
    && (forall x :: x in f.delivered ==> Passed(f, x) && Matching(s, f, x) && Since(s, x, f.begun))
  }

  /** How many activations of s are in a slot. */
  function InSlots(stack: seq<Frame>, s: nat): nat {
    if stack == [] then 0
    else InSlots(stack[..|stack| - 1], s) + (if stack[|stack| - 1].sender == s && stack[|stack| - 1].inSlot then 1 else 0)
  }

  /** The signal that sender-side code of f left current: its own, until a slot threw. */
  function CurrentOf(f: Frame): nat {
    if f.threw then f.priorSig else f.sig
  }

  /** The current sender and signal on top of the stack, bottom up. */
  function SenderOn(stack: seq<Frame>): nat {
    if stack == [] then 0 else stack[|stack| - 1].sender
  }

  function SignalOn(stack: seq<Frame>): nat {
    if stack == [] then 0 else CurrentOf(stack[|stack| - 1])
  }

  predicate FrameOk(stack: seq<Frame>, k: nat, nextSig: nat)
    requires k < |stack|
  {
    var f := stack[k];
    && 0 < f.sig < nextSig && (k > 0 ==> stack[k - 1].sig < f.sig)
    && f.priorSender == SenderOn(stack[..k]) && f.priorSig == SignalOn(stack[..k])
    && (f.inSlot ==> f.oldBusy == InSlots(stack[..k], f.sender))
    && (k < |stack| - 1 ==> f.inSlot)
  }

  predicate StackOk(stack: seq<Frame>, nextSig: nat) {
    nextSig > 0 && forall k :: 0 <= k < |stack| ==> FrameOk(stack, k, nextSig)
  }

  /** The busy counter of a living sender. */
  predicate BusyOk(senders: map<nat, Sender>, stack: seq<Frame>) {
    forall s :: s in senders ==> senders[s].busy == InSlots(stack, s)
  }

  /** The set holds the dead senders that still have an activation in a slot. */
  ghost predicate SetOk(st: State) {
    forall s :: s in st.beingDestroyed <==> s !in st.senders && InSlots(st.stack, s) > 0
  }

  predicate LiveFrame(st: State, k: nat)
    requires k < |st.stack|
  {
    var f := st.stack[k];
    if f.sender in st.senders then WalkOk(st.senders[f.sender], f) else f.inSlot
  }

  ghost predicate Inv(st: State) {
    && !st.bad
    && (forall s :: s in st.senders ==> SenderOk(st.senders[s]))
    && StackOk(st.stack, st.nextSig)
    && st.currentSender == SenderOn(st.stack) && st.currentSignal == SignalOn(st.stack)
    && BusyOk(st.senders, st.stack) && SetOk(st)
    && forall k :: 0 <= k < |st.stack| ==> LiveFrame(st, k)
  }

  // -------------------------------------------------------------- the list: proofs

  lemma {:induction false} AfterIs(list: seq<nat>, x: nat)
    requires Increasing(list)
    ensures var n := After(list, x); n != 0 ==> n in list && n > x
    ensures forall y :: y in list && y > x ==> 0 < After(list, x) <= y
  {
    if list != [] {
      AfterIs(list[1..], x);
      forall y | y in list && y > x ensures 0 < After(list, x) <= y {
        if list[0] <= x { assert y in list[1..]; }
      }
    }
  }

  lemma {:induction false} WithoutIs(list: seq<nat>, x: nat)
    requires Increasing(list)
    ensures Increasing(Without(list, x))
    ensures forall y :: y in Without(list, x) <==> y in list && y != x
  {
    if list != [] {
      var rest := list[1..];
      WithoutIs(rest, x);
      forall y | y in rest ensures list[0] < y {
        var i :| 0 <= i < |rest| && rest[i] == y;
        assert list[i + 1] == y;
      }
      var w := Without(rest, x);
      forall i | 0 <= i < |w| ensures list[0] < w[i] { assert w[i] in w; }
      forall y ensures y in Without(list, x) <==> y in list && y != x {
        assert y in list <==> y == list[0] || y in rest;
      }
    }
  }

  lemma PushBackOk(s: Sender, signal: Bento)
    requires SenderOk(s)
    ensures SenderOk(PushBack(s, signal))
  {
    var t := PushBack(s, signal);
    forall i | 0 <= i < |s.list| ensures s.list[i] < s.clock { assert s.list[i] in s.list; }
    forall x | x in t.erased ensures FrozenOk(t, x) { assert FrozenOk(s, x); }
  }

  lemma EraseNodeOk(s: Sender, id: nat)
    requires SenderOk(s) && id in s.list
    ensures SenderOk(EraseNode(s, id))
  {
    var t := EraseNode(s, id);
    AfterIs(s.list, id);
    WithoutIs(s.list, id);
    forall x | x in t.erased ensures FrozenOk(t, x) {
      if x != id { assert FrozenOk(s, x); }
    }
  }

  /** The step to the next node keeps what the traversal has promised. */
  lemma WalkNext(s: Sender, f: Frame)
    requires SenderOk(s) && WalkOk(s, f) && f.cursor != 0
    requires f.inSlot || !Matching(s, f, f.cursor)
    ensures var g := f.(inSlot := false, cursor := Next(s, f.cursor)); WalkOk(s, g) && forall x :: x in f.delivered ==> Passed(g, x)
  {
    var n := Next(s, f.cursor);
    AfterIs(s.list, f.cursor);
    if f.cursor in s.erased { assert FrozenOk(s, f.cursor); }
    var g := f.(inSlot := false, cursor := n);
    forall x | x in s.list && x < f.begun && Passed(g, x) && Matching(s, g, x) ensures x in g.delivered {
      assert Matching(s, f, x) && !(x > f.cursor);
    }
    forall x | x in f.delivered ensures Passed(g, x) && Matching(s, g, x) { assert Passed(f, x); }
  }

  lemma WalkDeliver(s: Sender, f: Frame)
    requires SenderOk(s) && WalkOk(s, f) && f.cursor != 0 && !f.inSlot && Matching(s, f, f.cursor)
    ensures WalkOk(s, f.(inSlot := true, oldBusy := s.busy, delivered := f.delivered + [f.cursor]))
  {
    var g := f.(inSlot := true, oldBusy := s.busy, delivered := f.delivered + [f.cursor]);
    forall x | x in s.list && x < f.begun && Passed(g, x) && Matching(s, g, x) ensures x in g.delivered {
      if x != f.cursor { assert Passed(f, x) && Matching(s, f, x); }
    }
    forall i | 0 <= i < |f.delivered| ensures f.delivered[i] < f.cursor { assert f.delivered[i] in f.delivered; }
  }

  lemma WalkPushBack(s: Sender, signal: Bento, f: Frame)
    requires SenderOk(s) && WalkOk(s, f)
    ensures WalkOk(PushBack(s, signal), f)
  {
    var t := PushBack(s, signal);
    forall x | x in t.list && x < f.begun && Passed(f, x) && Matching(t, f, x) ensures x in f.delivered {
      assert Matching(s, f, x);
    }
    forall x | x in f.delivered ensures Matching(t, f, x) && Since(t, x, f.begun) { assert Matching(s, f, x) && Since(s, x, f.begun); }
  }

  lemma WalkErase(s: Sender, id: nat, f: Frame)
    requires SenderOk(s) && WalkOk(s, f) && id in s.list
    ensures WalkOk(EraseNode(s, id), f)
  {
    var t := EraseNode(s, id);
    WithoutIs(s.list, id);
    forall x | x in t.list && x < f.begun && Passed(f, x) && Matching(t, f, x) ensures x in f.delivered {
      assert Matching(s, f, x);
    }
    forall x | x in f.delivered ensures Matching(t, f, x) && Since(t, x, f.begun) { assert Matching(s, f, x) && Since(s, x, f.begun); }
  }

  lemma WalkBegin(s: Sender, f: Frame)
    requires SenderOk(s) && f.cursor == After(s.list, 0) && f.begun == s.clock && !f.inSlot && f.delivered == []
    ensures WalkOk(s, f)
  {
    AfterIs(s.list, 0);
  }

  /** The busy counter means nothing to a traversal. */
  lemma WalkBusy(s: Sender, f: Frame, n: nat)
    ensures WalkOk(s.(busy := n), f) == WalkOk(s, f)
    ensures SenderOk(s.(busy := n)) == SenderOk(s)
  {
    var t := s.(busy := n);
    forall x ensures Matching(t, f, x) == Matching(s, f, x) && Since(t, x, f.begun) == Since(s, x, f.begun) {}
    forall x | x in s.erased ensures FrozenOk(t, x) == FrozenOk(s, x) {
      assert forall y, g :: Since(t, y, g) == Since(s, y, g);
    }
  }

  // -------------------------------------------------------------- the machine: proofs

  lemma InSlotsPush(stack: seq<Frame>, f: Frame, s: nat)
    ensures InSlots(stack + [f], s) == InSlots(stack, s) + (if f.sender == s && f.inSlot then 1 else 0)
  {
    assert (stack + [f])[..|stack|] == stack;
  }

  lemma {:induction false} InSlotsPositive(stack: seq<Frame>, s: nat)
    ensures InSlots(stack, s) > 0 <==> exists k :: 0 <= k < |stack| && stack[k].sender == s && stack[k].inSlot
  {
    if stack != [] {
      var low := stack[..|stack| - 1];
      InSlotsPositive(low, s);
      if k :| 0 <= k < |low| && low[k].sender == s && low[k].inSlot { assert stack[k] == low[k]; }
      if k :| 0 <= k < |stack| && stack[k].sender == s && stack[k].inSlot { assert k < |low| ==> low[k] == stack[k]; }
    }
  }

  /** The frames below the last one. */
  lemma StackPop(stack: seq<Frame>, nextSig: nat)
    requires StackOk(stack, nextSig) && stack != []
    ensures StackOk(stack[..|stack| - 1], nextSig)
    ensures forall k :: 0 <= k < |stack| - 1 ==> stack[k].inSlot
  {
    var low := stack[..|stack| - 1];
    forall k | 0 <= k < |stack| ensures k < |low| ==> FrameOk(low, k, nextSig) && stack[k].inSlot {
      assert FrameOk(stack, k, nextSig);
      if k < |low| { assert low[..k] == stack[..k]; }
    }
  }

  lemma AllInSlots(stack: seq<Frame>, nextSig: nat)
    requires StackOk(stack, nextSig) && (stack != [] ==> stack[|stack| - 1].inSlot)
    ensures forall k :: 0 <= k < |stack| ==> stack[k].inSlot
    ensures stack != [] ==> stack[|stack| - 1].sig < nextSig
  {
    if stack != [] {
      StackPop(stack, nextSig);
      assert FrameOk(stack, |stack| - 1, nextSig);
    }
  }

  lemma StackPush(stack: seq<Frame>, nextSig: nat, f: Frame, nextSig': nat)
    requires StackOk(stack, nextSig) && (forall k :: 0 <= k < |stack| ==> stack[k].inSlot)
    requires nextSig <= nextSig' && 0 < f.sig < nextSig' && (stack != [] ==> stack[|stack| - 1].sig < f.sig)
    requires f.priorSender == SenderOn(stack) && f.priorSig == SignalOn(stack)
    requires f.inSlot ==> f.oldBusy == InSlots(stack, f.sender)
    ensures StackOk(stack + [f], nextSig')
  {
    var all := stack + [f];
    assert all[..|stack|] == stack;
    forall k | 0 <= k < |all| ensures FrameOk(all, k, nextSig') {
      if k < |stack| {
        assert FrameOk(stack, k, nextSig);
        assert all[..k] == stack[..k];
      }
    }
  }

  /** Facts about the last frame. */
  lemma TopFacts(st: State)
    requires StackOk(st.stack, st.nextSig) && st.stack != []
    ensures var f, low := Top(st), Below(st);
            && st.stack == low + [f] && StackOk(low, st.nextSig) && (forall k :: 0 <= k < |low| ==> low[k].inSlot)
            && 0 < f.sig < st.nextSig && (low != [] ==> low[|low| - 1].sig < f.sig)
            && f.priorSender == SenderOn(low) && f.priorSig == SignalOn(low)
            && (f.inSlot ==> f.oldBusy == InSlots(low, f.sender))
  {
    StackPop(st.stack, st.nextSig);
    assert FrameOk(st.stack, |st.stack| - 1, st.nextSig);
  }

  lemma CreateInv(st: State, s: nat)
    requires Inv(st) && Enabled(st, Create(s))
    ensures Inv(Do(st, Create(s)))
  {
    var after := Do(st, Create(s));
    InSlotsPositive(st.stack, s);
    forall k | 0 <= k < |after.stack| ensures LiveFrame(after, k) { assert LiveFrame(st, k); }
  }

  lemma ConnectInv(st: State, s: nat, signal: Bento)
    requires Inv(st) && Enabled(st, Connect(s, signal))
    ensures Inv(Do(st, Connect(s, signal)))
  {
    var after := Do(st, Connect(s, signal));
    PushBackOk(st.senders[s], signal);
    forall k | 0 <= k < |after.stack| ensures LiveFrame(after, k) {
      assert LiveFrame(st, k);
      if st.stack[k].sender == s { WalkPushBack(st.senders[s], signal, st.stack[k]); }
    }
  }

  lemma EraseInv(st: State, s: nat, id: nat)
    requires Inv(st) && Enabled(st, Erase(s, id))
    ensures Inv(Do(st, Erase(s, id)))
  {
    var after := Do(st, Erase(s, id));
    EraseNodeOk(st.senders[s], id);
    forall k | 0 <= k < |after.stack| ensures LiveFrame(after, k) {
      assert LiveFrame(st, k);
      if st.stack[k].sender == s { WalkErase(st.senders[s], id, st.stack[k]); }
    }
  }

  lemma DestroyInv(st: State, s: nat)
    requires Inv(st) && Enabled(st, Destroy(s))
    ensures Inv(Do(st, Destroy(s)))
  {
    var after := Do(st, Destroy(s));
    assert st.senders[s].busy == InSlots(st.stack, s);
    forall x ensures x in after.beingDestroyed <==> x !in after.senders && InSlots(after.stack, x) > 0 {
      assert x in st.beingDestroyed <==> x !in st.senders && InSlots(st.stack, x) > 0;
    }
    forall k | 0 <= k < |after.stack| ensures LiveFrame(after, k) {
      assert LiveFrame(st, k) && FrameOk(st.stack, k, st.nextSig);
    }
  }

  lemma EmitInv(st: State, s: nat, signal: Bento)
    requires Inv(st) && Enabled(st, Emit(s, signal))
    ensures Inv(Do(st, Emit(s, signal)))
  {
    var after := Do(st, Emit(s, signal));
    var f := Top(after);
    AllInSlots(st.stack, st.nextSig);
    StackPush(st.stack, st.nextSig, f, after.nextSig);
    WalkBegin(st.senders[s], f);
    forall x ensures InSlots(after.stack, x) == InSlots(st.stack, x) { InSlotsPush(st.stack, f, x); }
    forall k | 0 <= k < |after.stack| ensures LiveFrame(after, k) {
      if k < |st.stack| { assert LiveFrame(st, k); }
    }
  }

  /** Leaving without touching the sender: the last frame is not in a slot any more,
      or its sender is dead and the set has been put right. */
  lemma PopInv(st: State, left: set<nat>)
    requires Inv(st) && st.stack != []
    requires forall s :: s in left <==> s !in st.senders && InSlots(Below(st), s) > 0
    requires Top(st).inSlot ==> Top(st).sender !in st.senders
    ensures Inv(Pop(Restore(st)).(beingDestroyed := left))
  {
    var after := Pop(Restore(st)).(beingDestroyed := left);
    TopFacts(st);
    forall s | s in st.senders ensures st.senders[s].busy == InSlots(after.stack, s) { InSlotsPush(Below(st), Top(st), s); }
    forall k | 0 <= k < |after.stack| ensures LiveFrame(after, k) { assert LiveFrame(st, k); }
  }

  lemma LeaveInv(st: State)
    requires Inv(st) && st.stack != [] && Top(st).inSlot && Top(st).sender in st.beingDestroyed
    ensures Inv(Leave(Restore(st)))
  {
    var f := Top(st);
    var left := if f.oldBusy == 0 then st.beingDestroyed - {f.sender} else st.beingDestroyed;
    TopFacts(st);
    assert f.sender !in st.senders;
    forall s ensures s in left <==> s !in st.senders && InSlots(Below(st), s) > 0 {
      InSlotsPush(Below(st), f, s);
      assert s in st.beingDestroyed <==> s !in st.senders && InSlots(st.stack, s) > 0;
    }
    PopInv(st, left);
    assert Leave(Restore(st)) == Pop(Restore(st)).(beingDestroyed := left);
  }

  /** A change of the last frame and of the busy counter of its living sender. */
  lemma ReplaceTop(st: State, g: Frame, n: nat, currentSignal: nat)
    requires Inv(st) && st.stack != []
    requires var f := Top(st);
             && f.sender in st.senders && g.sender == f.sender && g.sig == f.sig
             && g.priorSender == f.priorSender && g.priorSig == f.priorSig
             && WalkOk(st.senders[f.sender], g)
             && n + (if f.inSlot then 1 else 0) == st.senders[f.sender].busy + (if g.inSlot then 1 else 0)
             && (g.inSlot ==> g.oldBusy == InSlots(Below(st), f.sender)) && currentSignal == CurrentOf(g)
    ensures Inv(SetTop(st, g).(senders := st.senders[g.sender := st.senders[g.sender].(busy := n)], currentSignal := currentSignal))
  {
    var f, low := Top(st), Below(st);
    var after := SetTop(st, g).(senders := st.senders[g.sender := st.senders[g.sender].(busy := n)], currentSignal := currentSignal);
    TopFacts(st);
    StackPush(low, st.nextSig, g, st.nextSig);
    forall s ensures InSlots(after.stack, s) == InSlots(st.stack, s)
                 + (if s == g.sender then (if g.inSlot then 1 else 0) - (if f.inSlot then 1 else 0) else 0) {
      InSlotsPush(low, f, s);
      InSlotsPush(low, g, s);
    }
    ReplaceTopFrames(st, after, g, n);
    WalkBusy(st.senders[g.sender], g, n);
    ReplaceTopSet(st, after);
  }

  lemma ReplaceTopSet(st: State, after: State)
    requires SetOk(st) && after.senders.Keys == st.senders.Keys && after.beingDestroyed == st.beingDestroyed
    requires forall s :: s !in st.senders ==> InSlots(after.stack, s) == InSlots(st.stack, s)
    ensures SetOk(after)
  {
    forall s ensures s in after.beingDestroyed <==> s !in after.senders && InSlots(after.stack, s) > 0 {
      assert s in st.beingDestroyed <==> s !in st.senders && InSlots(st.stack, s) > 0;
    }
  }

  lemma ReplaceTopFrames(st: State, after: State, g: Frame, n: nat)
    requires (forall k :: 0 <= k < |st.stack| ==> LiveFrame(st, k)) && st.stack != [] && g.sender in st.senders
    requires WalkOk(st.senders[g.sender], g) && after.stack == Below(st) + [g]
    requires after.senders == st.senders[g.sender := st.senders[g.sender].(busy := n)]
    ensures forall k :: 0 <= k < |after.stack| ==> LiveFrame(after, k)
  {
    forall k | 0 <= k < |after.stack| ensures LiveFrame(after, k) {
      assert k < |Below(st)| ==> LiveFrame(st, k) && after.stack[k] == st.stack[k];
      WalkBusy(st.senders[g.sender], after.stack[k], n);
    }
  }

  /** The last frame after its slot came back. */
  function Resumed(s: Sender, f: Frame, threw: bool): Frame {
    f.(inSlot := false, cursor := Next(s, f.cursor), threw := f.threw || threw)
  }

  lemma WalkResumed(s: Sender, f: Frame, threw: bool)
    requires SenderOk(s) && WalkOk(s, f) && f.inSlot
    ensures WalkOk(s, Resumed(s, f, threw))
  {
    WalkNext(s, f);
    WalkThrew(s, f.(inSlot := false, cursor := Next(s, f.cursor)), f.threw || threw);
  }

  lemma ResumedState(st: State, threw: bool)
    requires st.stack != [] && Top(st).sender !in st.beingDestroyed
    requires Top(st).sender in st.senders && st.senders[Top(st).sender].busy > 0
    requires st.currentSender == Top(st).sender && st.currentSignal == CurrentOf(Top(st))
    ensures var f := Top(st); var s := st.senders[f.sender]; var h := Resumed(s, f, threw);
            (if threw then AfterThrow(st) else AfterReturn(st))
            == SetTop(st, h).(senders := st.senders[f.sender := s.(busy := s.busy - 1)], currentSignal := CurrentOf(h))
  {
  }

  lemma ResumeInv(st: State, threw: bool)
    requires Inv(st) && st.stack != [] && Top(st).inSlot && Top(st).sender !in st.beingDestroyed
    ensures Inv(if threw then AfterThrow(st) else AfterReturn(st))
  {
    var f := Top(st);
    InSlotsPush(Below(st), f, f.sender);
    assert f.sender in st.senders;
    var s := st.senders[f.sender];
    assert LiveFrame(st, |st.stack| - 1) && s.busy == InSlots(st.stack, f.sender) > 0;
    WalkResumed(s, f, threw);
    var h := Resumed(s, f, threw);
    ResumedState(st, threw);
    ReplaceTop(st, h, s.busy - 1, CurrentOf(h));
  }

  lemma WalkThrew(s: Sender, f: Frame, threw: bool)
    requires WalkOk(s, f)
    ensures WalkOk(s, f.(threw := threw))
  {
    var g := f.(threw := threw);
    forall x ensures Matching(s, g, x) == Matching(s, f, x) && Passed(g, x) == Passed(f, x) {}
  }

  lemma EndInv(st: State)
    requires Inv(st) && Enabled(st, Advance) && Top(st).cursor == 0 && Top(st).sender in st.senders
    ensures Inv(Loop(st))
  {
    forall x ensures InSlots(Below(st), x) == InSlots(st.stack, x) { InSlotsPush(Below(st), Top(st), x); }
    PopInv(st, st.beingDestroyed);
    assert Loop(st) == Pop(Restore(st)).(beingDestroyed := st.beingDestroyed);
  }

  lemma SkipInv(st: State)
    requires Inv(st) && Enabled(st, Advance) && Top(st).cursor != 0 && Top(st).sender in st.senders
    requires WalkOk(st.senders[Top(st).sender], Top(st)) && !Matching(st.senders[Top(st).sender], Top(st), Top(st).cursor)
    ensures Inv(Loop(st))
  {
    var f := Top(st);
    var s := st.senders[f.sender];
    WalkNext(s, f);
    var g := f.(cursor := Next(s, f.cursor));
    ReplaceTop(st, g, s.busy, st.currentSignal);
    assert st.senders[f.sender := s.(busy := s.busy)] == st.senders;
  }

  /** The last frame when it calls the slot of the node it stands on. */
  function Called(s: Sender, f: Frame): Frame {
    f.(inSlot := true, oldBusy := s.busy, delivered := f.delivered + [f.cursor])
  }

  lemma CallStep(st: State)
    requires st.stack != [] && Top(st).cursor != 0 && Top(st).sender in st.senders
    requires Matching(st.senders[Top(st).sender], Top(st), Top(st).cursor)
    ensures var f := Top(st); var s := st.senders[f.sender];
            Loop(st) == SetTop(st, Called(s, f)).(senders := st.senders[f.sender := s.(busy := s.busy + 1)])
  {
  }

  lemma BusyBelow(st: State)
    requires BusyOk(st.senders, st.stack) && st.stack != [] && !Top(st).inSlot && Top(st).sender in st.senders
    ensures st.senders[Top(st).sender].busy == InSlots(Below(st), Top(st).sender)
  {
    InSlotsPush(Below(st), Top(st), Top(st).sender);
  }

  lemma CalledInv(st: State)
    requires Inv(st) && Enabled(st, Advance) && Top(st).cursor != 0 && Top(st).sender in st.senders
    requires WalkOk(st.senders[Top(st).sender], Top(st)) && Matching(st.senders[Top(st).sender], Top(st), Top(st).cursor)
    ensures var f := Top(st); var s := st.senders[f.sender];
            Inv(SetTop(st, Called(s, f)).(senders := st.senders[f.sender := s.(busy := s.busy + 1)], currentSignal := st.currentSignal))
  {
    var f := Top(st);
    var s := st.senders[f.sender];
    WalkDeliver(s, f);
    BusyBelow(st);
    ReplaceTop(st, Called(s, f), s.busy + 1, st.currentSignal);
  }

  lemma CallInv(st: State)
    requires Inv(st) && Enabled(st, Advance) && Top(st).cursor != 0 && Top(st).sender in st.senders
    requires WalkOk(st.senders[Top(st).sender], Top(st)) && Matching(st.senders[Top(st).sender], Top(st), Top(st).cursor)
    ensures Inv(Loop(st))
  {
    CalledInv(st);
    CallStep(st);
  }

  lemma AdvanceInv(st: State)
    requires Inv(st) && Enabled(st, Advance)
    ensures Inv(Loop(st))
  {
    var f := Top(st);
    assert LiveFrame(st, |st.stack| - 1);
    if f.cursor == 0 { EndInv(st); }
    else if Matching(st.senders[f.sender], f, f.cursor) { CallInv(st); }
    else { SkipInv(st); }
  }

  lemma DoInv(st: State, a: Action)
    requires Inv(st) && Enabled(st, a)
    ensures Inv(Do(st, a))
  {
    match a
    case Create(s) => CreateInv(st, s);
    case Connect(s, signal) => ConnectInv(st, s, signal);
    case Erase(s, id) => EraseInv(st, s, id);
    case Destroy(s) => DestroyInv(st, s);
    case Emit(s, signal) => EmitInv(st, s, signal);
    case Advance => AdvanceInv(st);
    case Return => if Top(st).sender in st.beingDestroyed { LeaveInv(st); } else { ResumeInv(st, false); }
    case Throw => if Top(st).sender in st.beingDestroyed { LeaveInv(st); } else { ResumeInv(st, true); }
  }
}
