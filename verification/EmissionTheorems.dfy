/** What holds of every run of user code and activations on one thread, while other
    threads connect and disconnect. */
module EmissionTheorems {
  import opened Dispatch
  import opened Emission

  predicate StepAt(tr: seq<State>, acts: seq<Action>, i: nat)
    requires i < |acts| && |tr| == |acts| + 1
  {
    Enabled(tr[i], acts[i]) && tr[i + 1] == Do(tr[i], acts[i])
  }

  /** Any sequence of enabled actions, from nothing. */
  predicate IsRun(tr: seq<State>, acts: seq<Action>) {
    && |tr| == |acts| + 1 && tr[0] == Init
    && forall i :: 0 <= i < |acts| ==> StepAt(tr, acts, i)
  }

  lemma {:induction false} RunInv(tr: seq<State>, acts: seq<Action>, i: nat)
    requires IsRun(tr, acts) && i < |tr|
    ensures Inv(tr[i])
  {
    if i > 0 {
      RunInv(tr, acts, i - 1);
      assert StepAt(tr, acts, i - 1);
      DoInv(tr[i - 1], acts[i - 1]);
    }
  }

  // -------------------------------------------------------------- single states

  /** No activation ever uses a sender, or a node, that does not exist any more. */
  lemma NeverUsesTheDead(tr: seq<State>, acts: seq<Action>, i: nat)
    requires IsRun(tr, acts) && i < |tr|
    ensures !tr[i].bad
  {
    RunInv(tr, acts, i);
  }

  /** There is an activation of s, in a slot or not. */
  predicate HasFrame(stack: seq<Frame>, s: nat) {
    exists k :: 0 <= k < |stack| && stack[k].sender == s
  }

  /** The busy counter of a living sender is the number of its activations in a slot,
      and an activation in a slot saw 0 exactly if it is the outermost of its sender. */
  lemma FrameAccounting(tr: seq<State>, acts: seq<Action>, i: nat)
    requires IsRun(tr, acts) && i < |tr|
    ensures forall s :: s in tr[i].senders ==> tr[i].senders[s].busy == InSlots(tr[i].stack, s)
    ensures forall k :: 0 <= k < |tr[i].stack| && tr[i].stack[k].inSlot ==>
              (tr[i].stack[k].oldBusy == 0 <==> !HasFrame(tr[i].stack[..k], tr[i].stack[k].sender))
  {
    RunInv(tr, acts, i);
    var stack := tr[i].stack;
    forall k | 0 <= k < |stack| && stack[k].inSlot
      ensures stack[k].oldBusy == 0 <==> !HasFrame(stack[..k], stack[k].sender)
    {
      assert FrameOk(stack, k, tr[i].nextSig);
      Outermost(stack, tr[i].nextSig, k);
    }
  }

  lemma Outermost(stack: seq<Frame>, nextSig: nat, k: nat)
    requires StackOk(stack, nextSig) && k < |stack|
    ensures InSlots(stack[..k], stack[k].sender) > 0 <==> HasFrame(stack[..k], stack[k].sender)
  {
    InSlotsPositive(stack[..k], stack[k].sender);
    forall j | 0 <= j < k ensures stack[..k][j].inSlot { assert FrameOk(stack, j, nextSig); }
  }

  /** The set of senders being destroyed is exactly the dead senders with an
      activation still to return from; so it is empty when nothing is running. */
  lemma BeingDestroyed(tr: seq<State>, acts: seq<Action>, i: nat)
    requires IsRun(tr, acts) && i < |tr|
    ensures forall s :: s in tr[i].beingDestroyed <==> s !in tr[i].senders && HasFrame(tr[i].stack, s)
    ensures tr[i].stack == [] ==> tr[i].beingDestroyed == {}
  {
    RunInv(tr, acts, i);
    var st := tr[i];
    forall s ensures s in st.beingDestroyed <==> s !in st.senders && HasFrame(st.stack, s) {
      InSlotsPositive(st.stack, s);
      if k :| 0 <= k < |st.stack| && st.stack[k].sender == s { assert LiveFrame(st, k); }
    }
  }

  /** The current signal is never left pointing to the Bento object of an activation
      that has returned. */
  lemma SignalNeverDangles(tr: seq<State>, acts: seq<Action>, i: nat)
    requires IsRun(tr, acts) && i < |tr|
    ensures tr[i].currentSignal == 0 || exists k :: 0 <= k < |tr[i].stack| && tr[i].stack[k].sig == tr[i].currentSignal
  {
    RunInv(tr, acts, i);
    SignalOnStack(tr[i].stack, tr[i].nextSig);
  }

  lemma {:induction false} SignalOnStack(stack: seq<Frame>, nextSig: nat)
    requires StackOk(stack, nextSig)
    ensures SignalOn(stack) == 0 || exists k :: 0 <= k < |stack| && stack[k].sig == SignalOn(stack)
  {
    if stack != [] {
      var low := stack[..|stack| - 1];
      StackPop(stack, nextSig);
      assert FrameOk(stack, |stack| - 1, nextSig);
      SignalOnStack(low, nextSig);
      if k :| 0 <= k < |low| && low[k].sig == SignalOn(low) { assert stack[k].sig == SignalOn(low); }
      assert stack[|stack| - 1].sig == CurrentOf(stack[|stack| - 1]) || CurrentOf(stack[|stack| - 1]) == SignalOn(low);
    }
  }

  /** The step enters a slot of the activation at depth k. */
  predicate Calls(before: State, a: Action, after: State, k: nat) {
    a.Advance? && |before.stack| == k + 1 == |after.stack| && after.stack[k].inSlot
  }

  /** The slot that the activation at depth k has called ends with an exception. */
  predicate Throws(st: State, a: Action, k: nat) {
    a.Throw? && |st.stack| == k + 1
  }

  lemma EntersSlot(st: State, k: nat)
    requires Inv(st) && Enabled(st, Advance) && Calls(st, Advance, Loop(st), k)
    ensures var f := Top(st);
            && f.sender in st.senders && Loop(st).currentSender == f.sender
            && Loop(st).currentSignal == CurrentOf(f) && f.priorSig < f.sig
  {
    TopFacts(st);
    assert LiveFrame(st, k);
    SignalBelow(Below(st), st.nextSig, Top(st).sig);
  }

  lemma SignalBelow(stack: seq<Frame>, nextSig: nat, sig: nat)
    requires StackOk(stack, nextSig) && sig > 0 && (stack != [] ==> stack[|stack| - 1].sig < sig)
    ensures SignalOn(stack) < sig
  {
    if stack != [] {
      SignalOnStack(stack, nextSig);
      if k :| 0 <= k < |stack| && stack[k].sig == SignalOn(stack) { SigsIncrease(stack, nextSig, k); }
    }
  }

  lemma {:induction false} SigsIncrease(stack: seq<Frame>, nextSig: nat, k: nat)
    requires StackOk(stack, nextSig) && k < |stack|
    ensures stack[k].sig <= stack[|stack| - 1].sig
    decreases |stack| - k
  {
    if k + 1 < |stack| {
      assert FrameOk(stack, k + 1, nextSig);
      SigsIncrease(stack, nextSig, k + 1);
    }
  }

  // -------------------------------------------------------------- one activation

  /** The activation at depth k has not returned in the states from i to j. */
  predicate Running(tr: seq<State>, i: nat, j: nat, k: nat)
    requires j < |tr|
  {
    forall m :: i <= m <= j ==> k < |tr[m].stack|
  }

  /** An activation keeps what it saved when it began. */
  predicate SameFrame(f: Frame, g: Frame) {
    g == f.(cursor := g.cursor, inSlot := g.inSlot, oldBusy := g.oldBusy, threw := g.threw, delivered := g.delivered)
  }

  /** One step, for a frame that survives it: below the last frame nothing changes;
      the last frame changes in the steps of its activation, and takes note of a
      connection exactly when it calls it, and of an exception exactly when its slot
      throws. */
  lemma FrameStep(st: State, a: Action, k: nat)
    requires Inv(st) && Enabled(st, a) && k < |st.stack| && k < |Do(st, a).stack|
    ensures var f, g := st.stack[k], Do(st, a).stack[k];
            && SameFrame(f, g) && g.threw == (f.threw || Throws(st, a, k))
            && (g.delivered == if Calls(st, a, Do(st, a), k) then f.delivered + [f.cursor] else f.delivered)
            && (f.sender !in st.senders ==> g == f)
  {
    match a
    case Advance => LoopFrame(st, k);
    case Return => ResumeFrame(st, k, false);
    case Throw => ResumeFrame(st, k, true);
    case _ =>
  }

  lemma LoopFrame(st: State, k: nat)
    requires Inv(st) && Enabled(st, Advance) && k < |st.stack| && k < |Loop(st).stack|
    ensures var f, g := st.stack[k], Loop(st).stack[k];
            && SameFrame(f, g) && g.threw == f.threw
            && (g.delivered == if Calls(st, Advance, Loop(st), k) then f.delivered + [f.cursor] else f.delivered)
            && (f.sender !in st.senders ==> g == f)
  {
    assert LiveFrame(st, |st.stack| - 1);
    LoopTop(st, k);
  }

  lemma LoopTop(st: State, k: nat)
    requires st.stack != [] && k < |st.stack| && k < |Loop(st).stack| && !Top(st).inSlot && Top(st).sender in st.senders
    requires Top(st).cursor != 0 ==> Top(st).cursor in st.senders[Top(st).sender].signals
    ensures var f, g := st.stack[k], Loop(st).stack[k];
            && SameFrame(f, g) && g.threw == f.threw
            && (g.delivered == if Calls(st, Advance, Loop(st), k) then f.delivered + [f.cursor] else f.delivered)
            && (f.sender !in st.senders ==> g == f)
  {
  }

  lemma ResumeFrame(st: State, k: nat, threw: bool)
    requires Inv(st) && st.stack != [] && Top(st).inSlot
    requires k < |st.stack| && k < |(if threw then AfterThrow(st) else AfterReturn(st)).stack|
    ensures var f, g := st.stack[k], (if threw then AfterThrow(st) else AfterReturn(st)).stack[k];
            SameFrame(f, g) && g.delivered == f.delivered && g.threw == (f.threw || (threw && k == |st.stack| - 1)) && (f.sender !in st.senders ==> g == f)
  {
    var f := Top(st);
    InSlotsPush(Below(st), f, f.sender);
    if f.sender !in st.beingDestroyed {
      assert f.sender in st.senders && st.senders[f.sender].busy == InSlots(st.stack, f.sender);
      ResumedState(st, threw);
    }
  }

  lemma RunFrameStep(tr: seq<State>, acts: seq<Action>, j: nat, k: nat)
    requires IsRun(tr, acts) && 0 < j < |tr| && k < |tr[j - 1].stack| && k < |tr[j].stack|
    ensures var f, g := tr[j - 1].stack[k], tr[j].stack[k];
            && SameFrame(f, g) && g.threw == (f.threw || Throws(tr[j - 1], acts[j - 1], k))
            && (g.delivered == if Calls(tr[j - 1], acts[j - 1], tr[j], k) then f.delivered + [f.cursor] else f.delivered)
  {
    RunInv(tr, acts, j - 1);
    assert StepAt(tr, acts, j - 1);
    FrameStep(tr[j - 1], acts[j - 1], k);
  }

  lemma {:induction false} FrameKept(tr: seq<State>, acts: seq<Action>, i: nat, j: nat, k: nat)
    requires IsRun(tr, acts) && i <= j < |tr| && Running(tr, i, j, k)
    ensures SameFrame(tr[i].stack[k], tr[j].stack[k])
    decreases j
  {
    if i < j {
      FrameKept(tr, acts, i, j - 1, k);
      RunFrameStep(tr, acts, j, k);
    }
  }

  /** An activation of a sender that is destroyed is frozen: it calls no slot and its
      variables never change again, up to its return. */
  lemma {:induction false} StopsDelivering(tr: seq<State>, acts: seq<Action>, i: nat, j: nat, k: nat)
    requires IsRun(tr, acts) && i <= j < |tr| && Running(tr, i, j, k)
    requires tr[i].stack[k].sender !in tr[i].senders
    ensures tr[j].stack[k] == tr[i].stack[k] && tr[j].stack[k].sender !in tr[j].senders
    ensures i < j ==> !Calls(tr[j - 1], acts[j - 1], tr[j], k)
    decreases j
  {
    if i < j {
      StopsDelivering(tr, acts, i, j - 1, k);
      var st, a := tr[j - 1], acts[j - 1];
      RunInv(tr, acts, j - 1);
      assert StepAt(tr, acts, j - 1);
      FrameStep(st, a, k);
      assert LiveFrame(st, k);
      StaysDead(st, a, k);
    }
  }

  lemma StaysDead(st: State, a: Action, k: nat)
    requires Inv(st) && Enabled(st, a) && k < |st.stack| && st.stack[k].sender !in st.senders
    ensures st.stack[k].sender !in Do(st, a).senders
    ensures k == |st.stack| - 1 ==> !a.Advance?
  {
    assert LiveFrame(st, k);
    if a.Create? || a.Connect? || a.Erase? || a.Destroy? || a.Emit? { NotCreated(st, a, k); }
    else if a.Advance? { LoopSenders(st); }
    else { ResumeSenders(st, a.Throw?); }
  }

  lemma NotCreated(st: State, a: Action, k: nat)
    requires Enabled(st, a) && (a.Create? || a.Connect? || a.Erase? || a.Destroy? || a.Emit?)
    requires k < |st.stack| && st.stack[k].sender !in st.senders
    ensures st.stack[k].sender !in Do(st, a).senders
  {
  }

  lemma LoopSenders(st: State)
    requires st.stack != []
    ensures Loop(st).senders.Keys == st.senders.Keys
  {
  }

  lemma ResumeSenders(st: State, threw: bool)
    requires st.stack != []
    ensures (if threw then AfterThrow(st) else AfterReturn(st)).senders.Keys == st.senders.Keys
  {
  }

  /** When its slot comes back, by return or by exception, such an activation leaves
      at once, uses no sender, and takes the sender out of the set exactly if it is
      the outermost. */
  lemma LeavesAtOnce(tr: seq<State>, acts: seq<Action>, i: nat)
    requires IsRun(tr, acts) && i < |acts| && (acts[i].Advance? || acts[i].Return? || acts[i].Throw?)
    requires tr[i].stack != [] && Top(tr[i]).sender !in tr[i].senders
    ensures tr[i + 1].stack == Below(tr[i]) && tr[i + 1].senders == tr[i].senders
    ensures var s := Top(tr[i]).sender;
            tr[i + 1].beingDestroyed == if HasFrame(Below(tr[i]), s) then tr[i].beingDestroyed else tr[i].beingDestroyed - {s}
  {
    RunInv(tr, acts, i);
    assert StepAt(tr, acts, i);
    DeadTop(tr[i]);
  }

  lemma DeadTop(st: State)
    requires Inv(st) && st.stack != [] && Top(st).sender !in st.senders
    ensures Top(st).inSlot && Top(st).sender in st.beingDestroyed
    ensures Top(st).oldBusy == 0 <==> !HasFrame(Below(st), Top(st).sender)
  {
    var k := |st.stack| - 1;
    assert LiveFrame(st, k) && FrameOk(st.stack, k, st.nextSig);
    InSlotsPush(Below(st), Top(st), Top(st).sender);
    Outermost(st.stack, st.nextSig, k);
  }

  /** The activation of step i returns in step j. */
  predicate Activation(tr: seq<State>, acts: seq<Action>, i: nat, j: nat)
    requires |tr| == |acts| + 1 && i < j < |acts|
  {
    acts[i].Emit? && Running(tr, i + 1, j, |tr[i].stack|) && |tr[j + 1].stack| == |tr[i].stack|
  }

  lemma Begun(tr: seq<State>, acts: seq<Action>, i: nat)
    requires IsRun(tr, acts) && i < |acts| && acts[i].Emit?
    ensures var k, s := |tr[i].stack|, acts[i].sender;
            && s in tr[i].senders && tr[i + 1].senders == tr[i].senders
            && |tr[i + 1].stack| == k + 1 && tr[i + 1].stack[..k] == tr[i].stack
            && var f := tr[i + 1].stack[k];
               && f.sender == s && f.signal == acts[i].signal && f.begun == tr[i].senders[s].clock && f.delivered == []
               && f.priorSender == tr[i].currentSender && f.priorSig == tr[i].currentSignal && !f.inSlot && !f.threw
               && f.sig == tr[i + 1].currentSignal
  {
    assert StepAt(tr, acts, i);
  }

  /** A slot of the activation at depth k threw in one of the steps from i to j. */
  predicate HasThrown(tr: seq<State>, acts: seq<Action>, i: nat, j: nat, k: nat)
    requires |tr| == |acts| + 1 && j <= |acts|
  {
    exists m :: i <= m < j && Throws(tr[m], acts[m], k)
  }

  lemma {:induction false} ThrewIs(tr: seq<State>, acts: seq<Action>, i: nat, j: nat, k: nat)
    requires IsRun(tr, acts) && i <= j < |tr| && Running(tr, i, j, k) && !tr[i].stack[k].threw
    ensures tr[j].stack[k].threw <==> HasThrown(tr, acts, i, j, k)
    decreases j
  {
    if i < j {
      ThrewIs(tr, acts, i, j - 1, k);
      RunFrameStep(tr, acts, j, k);
      assert HasThrown(tr, acts, i, j, k) <==> HasThrown(tr, acts, i, j - 1, k) || Throws(tr[j - 1], acts[j - 1], k);
    }
  }

  /** A slot called in step j by the activation of step i starts with the emitting
      sender as current sender, always; with the emitted signal as current signal
      exactly if no earlier slot of this activation threw, otherwise with the signal
      that was current before the activation. */
  lemma SlotStart(tr: seq<State>, acts: seq<Action>, i: nat, j: nat)
    requires IsRun(tr, acts) && i < j < |acts| && acts[i].Emit? && Running(tr, i + 1, j, |tr[i].stack|)
    requires Calls(tr[j], acts[j], tr[j + 1], |tr[i].stack|)
    ensures acts[i].sender in tr[j].senders && tr[j + 1].currentSender == acts[i].sender
    ensures tr[j + 1].currentSignal == tr[i + 1].currentSignal <==> !HasThrown(tr, acts, i + 1, j, |tr[i].stack|)
    ensures HasThrown(tr, acts, i + 1, j, |tr[i].stack|) ==> tr[j + 1].currentSignal == tr[i].currentSignal
  {
    var k := |tr[i].stack|;
    Begun(tr, acts, i);
    FrameKept(tr, acts, i + 1, j, k);
    ThrewIs(tr, acts, i + 1, j, k);
    RunInv(tr, acts, j);
    assert StepAt(tr, acts, j);
    EntersSlot(tr[j], k);
  }

  /** However an activation returns, the current sender and signal are then what they
      were before it. */
  lemma Restored(tr: seq<State>, acts: seq<Action>, i: nat, j: nat)
    requires IsRun(tr, acts) && i < j < |acts| && Activation(tr, acts, i, j)
    ensures tr[j + 1].currentSender == tr[i].currentSender && tr[j + 1].currentSignal == tr[i].currentSignal
  {
    var k := |tr[i].stack|;
    Begun(tr, acts, i);
    FrameKept(tr, acts, i + 1, j, k);
    RunInv(tr, acts, j);
    RunInv(tr, acts, j + 1);
    assert StepAt(tr, acts, j);
    Popped(tr[j], acts[j], k);
  }

  /** Only the last activation returns, and its saved values become current. */
  lemma Popped(st: State, a: Action, k: nat)
    requires Inv(st) && Enabled(st, a) && k < |st.stack| && |Do(st, a).stack| == k
    ensures k == |st.stack| - 1 && (a.Advance? || a.Return? || a.Throw?)
    ensures Do(st, a).currentSender == st.stack[k].priorSender && Do(st, a).currentSignal == st.stack[k].priorSig
    ensures st.stack[k].sender in st.senders ==> a.Advance? && st.stack[k].cursor == 0 && Do(st, a).senders == st.senders
  {
  }

  // -------------------------------------------------------------- coverage

  /** The connections whose slots the activation at depth k has called between the
      states i and j, in the order of the calls. */
  function Delivered(tr: seq<State>, acts: seq<Action>, i: nat, j: nat, k: nat): seq<nat>
    requires |tr| == |acts| + 1 && i <= j < |tr| && Running(tr, i, j, k)
    decreases j
  {
    if i == j then []
    else
      assert Running(tr, i, j - 1, k);
      Delivered(tr, acts, i, j - 1, k) + (if Calls(tr[j - 1], acts[j - 1], tr[j], k) then [tr[j - 1].stack[k].cursor] else [])
  }

  lemma {:induction false} DeliveredIs(tr: seq<State>, acts: seq<Action>, i: nat, j: nat, k: nat)
    requires IsRun(tr, acts) && i <= j < |tr| && Running(tr, i, j, k) && tr[i].stack[k].delivered == []
    ensures tr[j].stack[k].delivered == Delivered(tr, acts, i, j, k)
    decreases j
  {
    if i < j {
      assert Running(tr, i, j - 1, k);
      DeliveredIs(tr, acts, i, j - 1, k);
      RunFrameStep(tr, acts, j, k);
    }
  }

  /** The connection x of sender s is in its list at some time between i and j. */
  predicate ListedDuring(tr: seq<State>, i: nat, j: nat, s: nat, x: nat)
    requires j < |tr|
  {
    exists m :: i <= m <= j && s in tr[m].senders && x in tr[m].senders[s].list
  }

  /** A sender with an activation cannot come back to life. */
  lemma StillAlive(st: State, a: Action, k: nat)
    requires Inv(st) && Enabled(st, a) && k < |st.stack| && st.stack[k].sender in Do(st, a).senders
    ensures st.stack[k].sender in st.senders
  {
    if st.stack[k].sender !in st.senders { StaysDead(st, a, k); }
  }

  lemma AliveBefore(tr: seq<State>, acts: seq<Action>, j: nat, k: nat)
    requires IsRun(tr, acts) && 0 < j < |tr| && k < |tr[j - 1].stack| && tr[j - 1].stack[k].sender in tr[j].senders
    ensures StepAt(tr, acts, j - 1) && tr[j - 1].stack[k].sender in tr[j - 1].senders
    ensures SenderOk(tr[j - 1].senders[tr[j - 1].stack[k].sender])
  {
    RunInv(tr, acts, j - 1);
    assert StepAt(tr, acts, j - 1);
    StillAlive(tr[j - 1], acts[j - 1], k);
  }

  /** What a step can do to a sender x that lives before and after, as y. */
  predicate Moves(x: Sender, y: Sender, a: Action, sender: nat) {
    || y == x.(busy := y.busy)
    || (a.Connect? && a.sender == sender && y == PushBack(x, a.signal))
    || (a.Erase? && a.sender == sender && a.id in x.list && y == EraseNode(x, a.id))
  }

  lemma SenderMoves(st: State, a: Action, s: nat)
    requires Enabled(st, a) && s in st.senders && s in Do(st, a).senders
    ensures Moves(st.senders[s], Do(st, a).senders[s], a, s)
  {
  }

  lemma SinceStep(st: State, a: Action, s: nat, x: nat, t: nat)
    requires Enabled(st, a) && s in st.senders && s in Do(st, a).senders && SenderOk(st.senders[s])
    requires Since(Do(st, a).senders[s], x, t)
    ensures x in Do(st, a).senders[s].list || Since(st.senders[s], x, t)
  {
    SenderMoves(st, a, s);
  }

  /** What is erased later than now is listed now. */
  lemma SinceNow(s: Sender, x: nat)
    requires SenderOk(s) && Since(s, x, s.clock)
    ensures x in s.list
  {
    ErasedBefore(s);
  }

  lemma ErasedBefore(s: Sender)
    requires SenderOk(s)
    ensures forall x :: x in s.erased ==> s.erased[x].gone < s.clock
  {
    forall x | x in s.erased ensures s.erased[x].gone < s.clock { assert FrozenOk(s, x); }
  }

  lemma {:induction false} SinceListed(tr: seq<State>, acts: seq<Action>, i: nat, j: nat, k: nat, x: nat)
    requires IsRun(tr, acts) && i < j < |tr| && acts[i].Emit? && k == |tr[i].stack| && Running(tr, i + 1, j, k)
    requires var s := acts[i].sender; s in tr[j].senders && s in tr[i].senders && Since(tr[j].senders[s], x, tr[i].senders[s].clock)
    ensures ListedDuring(tr, i, j, acts[i].sender, x)
    decreases j
  {
    var s := acts[i].sender;
    if j == i + 1 {
      Begun(tr, acts, i);
      RunInv(tr, acts, i);
      SinceNow(tr[i].senders[s], x);
    } else if x !in tr[j].senders[s].list {
      var st := tr[j - 1];
      StartedBy(tr, acts, i, j - 1);
      AliveBefore(tr, acts, j, k);
      SinceStep(st, acts[j - 1], s, x, tr[i].senders[s].clock);
      SinceListed(tr, acts, i, j - 1, k, x);
    }
  }

  lemma StartedBy(tr: seq<State>, acts: seq<Action>, i: nat, j: nat)
    requires IsRun(tr, acts) && i < j < |tr| && acts[i].Emit? && Running(tr, i + 1, j, |tr[i].stack|)
    ensures tr[j].stack[|tr[i].stack|].sender == acts[i].sender
  {
    Begun(tr, acts, i);
    FrameKept(tr, acts, i + 1, j, |tr[i].stack|);
  }

  /** x is a connection of s to the signal. */
  predicate LeadsFrom(s: Sender, x: nat, signal: Bento) {
    x in s.signals && s.signals[x].Same(signal)
  }

  /** x is connected before and after; a connection once removed does not come back. */
  predicate Stayed(before: Sender, after: Sender, x: nat) {
    x in before.list && x in after.list
  }

  lemma SignalStep(st: State, a: Action, s: nat, x: nat)
    requires Enabled(st, a) && s in st.senders && s in Do(st, a).senders && SenderOk(st.senders[s])
    requires x in st.senders[s].signals
    ensures x in Do(st, a).senders[s].signals && Do(st, a).senders[s].signals[x] == st.senders[s].signals[x]
  {
    SenderMoves(st, a, s);
  }

  /** The signal of a connection does not change while its sender has an activation. */
  lemma {:induction false} SignalUntil(tr: seq<State>, acts: seq<Action>, i: nat, j: nat, k: nat, c: nat)
    requires IsRun(tr, acts) && i <= j < |tr| && Running(tr, i, j, k)
    requires var s := tr[i].stack[k].sender; s in tr[i].senders && s in tr[j].senders && c in tr[i].senders[s].signals
    ensures var s := tr[i].stack[k].sender; c in tr[j].senders[s].signals && tr[j].senders[s].signals[c] == tr[i].senders[s].signals[c]
    decreases j
  {
    if i < j {
      FrameKept(tr, acts, i, j - 1, k);
      AliveBefore(tr, acts, j, k);
      SignalUntil(tr, acts, i, j - 1, k, c);
      SignalStep(tr[j - 1], acts[j - 1], tr[i].stack[k].sender, c);
    }
  }

  /** Coverage. An activation whose sender survives it has called the slot of every
      connection to its signal that was there before and is there after exactly once,
      in the order in which they were connected, and no connection that was never
      listed while it ran. */
  lemma Coverage(tr: seq<State>, acts: seq<Action>, i: nat, j: nat)
    requires IsRun(tr, acts) && i < j < |acts| && Activation(tr, acts, i, j) && acts[i].sender in tr[j + 1].senders
    ensures var s, k := acts[i].sender, |tr[i].stack|;
            && s in tr[i].senders
            && var calls := Delivered(tr, acts, i + 1, j, k);
               && Increasing(calls)
               && (forall x :: Stayed(tr[i].senders[s], tr[j + 1].senders[s], x) && LeadsFrom(tr[i].senders[s], x, acts[i].signal)
                     ==> x in calls)
               && (forall x :: x in calls ==>
                     LeadsFrom(tr[j + 1].senders[s], x, acts[i].signal) && ListedDuring(tr, i, j, s, x))
  {
    var s, k := acts[i].sender, |tr[i].stack|;
    Begun(tr, acts, i);
    FrameKept(tr, acts, i + 1, j, k);
    DeliveredIs(tr, acts, i + 1, j, k);
    RunInv(tr, acts, i);
    RunInv(tr, acts, j);
    assert StepAt(tr, acts, j);
    var f := tr[j].stack[k];
    StillAlive(tr[j], acts[j], k);
    Popped(tr[j], acts[j], k);
    assert LiveFrame(tr[j], k);
    forall x | x in f.delivered ensures ListedDuring(tr, i, j, s, x) && Matching(tr[j].senders[s], f, x) {
      SinceListed(tr, acts, i, j, k, x);
    }
    forall x | Stayed(tr[i].senders[s], tr[j].senders[s], x) && LeadsFrom(tr[i].senders[s], x, acts[i].signal) ensures x in f.delivered {
      SignalUntil(tr, acts, i + 1, j, k, x);
      assert Matching(tr[j].senders[s], f, x) && Passed(f, x);
    }
  }

  // -------------------------------------------------------------- what does not hold

  /** After the steps of a run, one more. */
  lemma Extend(tr: seq<State>, acts: seq<Action>, a: Action)
    requires IsRun(tr, acts) && Enabled(tr[|acts|], a)
    ensures IsRun(tr + [Do(tr[|acts|], a)], acts + [a])
  {
    var t, b := tr + [Do(tr[|acts|], a)], acts + [a];
    forall i | 0 <= i < |b| ensures StepAt(t, b, i) {
      if i < |acts| { assert StepAt(tr, acts, i); }
    }
  }

  /** Two connections of sender 1, which emits, and whose first slot has started. */
  function InFirstSlot(signal: Bento): State {
    var f := Frame(1, signal, 1, 0, 0, 1, true, 0, false, 3, [1]);
    State(map[1 := Sender(1, map[1 := signal, 2 := signal], [1, 2], map[], 3)], {}, 1, 1, [f], 2, false)
  }

  lemma TwoConnections(signal: Bento) returns (tr: seq<State>, acts: seq<Action>)
    ensures IsRun(tr, acts)
    ensures tr[|acts|] == State(map[1 := Sender(0, map[1 := signal, 2 := signal], [1, 2], map[], 3)], {}, 0, 0, [], 1, false)
  {
    tr, acts := [Init], [];
    Extend(tr, acts, Create(1));
    tr, acts := tr + [Do(tr[|acts|], Create(1))], acts + [Create(1)];
    assert tr[|acts|].senders[1] == Sender(0, map[], [], map[], 1);
    Extend(tr, acts, Connect(1, signal));
    tr, acts := tr + [Do(tr[|acts|], Connect(1, signal))], acts + [Connect(1, signal)];
    assert tr[|acts|].senders[1] == Sender(0, map[1 := signal], [1], map[], 2);
    Extend(tr, acts, Connect(1, signal));
    tr, acts := tr + [Do(tr[|acts|], Connect(1, signal))], acts + [Connect(1, signal)];
    assert tr[|acts|].senders[1] == Sender(0, map[1 := signal, 2 := signal], [1, 2], map[], 3);
  }

  /** Sender 1 has just begun to emit. */
  function BeforeFirstSlot(signal: Bento): State {
    var f := Frame(1, signal, 1, 0, 0, 1, false, 0, false, 3, []);
    State(map[1 := Sender(0, map[1 := signal, 2 := signal], [1, 2], map[], 3)], {}, 1, 1, [f], 2, false)
  }

  lemma EntersFirstSlot(signal: Bento)
    requires !signal.Lambda?
    ensures Loop(BeforeFirstSlot(signal)) == InFirstSlot(signal)
  {
    var st := BeforeFirstSlot(signal);
    assert Below(st) == [] && signal.Same(signal);
    assert Top(st).delivered + [1] == [1];
    assert Loop(st).senders == InFirstSlot(signal).senders;
  }

  lemma FirstSlot(signal: Bento) returns (tr: seq<State>, acts: seq<Action>)
    requires !signal.Lambda?
    ensures IsRun(tr, acts)
    ensures tr[|acts|] == InFirstSlot(signal)
  {
    tr, acts := TwoConnections(signal);
    Extend(tr, acts, Emit(1, signal));
    tr, acts := tr + [Do(tr[|acts|], Emit(1, signal))], acts + [Emit(1, signal)];
    assert tr[|acts|] == BeforeFirstSlot(signal);
    EntersFirstSlot(signal);
    Extend(tr, acts, Advance);
    tr, acts := tr + [InFirstSlot(signal)], acts + [Advance];
  }

  lemma AfterTheThrow(signal: Bento)
    ensures var f := Frame(1, signal, 1, 0, 0, 2, false, 0, true, 3, [1]);
            AfterThrow(InFirstSlot(signal))
            == State(map[1 := Sender(0, map[1 := signal, 2 := signal], [1, 2], map[], 3)], {}, 1, 0, [f], 2, false)
  {
    assert After([1, 2], 1) == 2;
    ResumedState(InFirstSlot(signal), true);
  }

  /** A slot can start with a current signal that is not the one emitted: the first
      slot throws, and the second one is called. */
  lemma ThrowLosesSignal(signal: Bento) returns (tr: seq<State>, acts: seq<Action>)
    requires !signal.Lambda?
    ensures IsRun(tr, acts) && |acts| >= 1 && Calls(tr[|acts| - 1], acts[|acts| - 1], tr[|acts|], 0)
    ensures tr[|acts|].currentSender == tr[|acts|].stack[0].sender && tr[|acts|].currentSignal != tr[|acts|].stack[0].sig
  {
    tr, acts := FirstSlot(signal);
    Extend(tr, acts, Throw);
    AfterTheThrow(signal);
    tr, acts := tr + [AfterThrow(InFirstSlot(signal))], acts + [Throw];
    Extend(tr, acts, Advance);
    tr, acts := tr + [Loop(tr[|acts|])], acts + [Advance];
  }

  /** The first slot has disconnected both connections, its own first. */
  function BothDisconnected(signal: Bento): State {
    var s := Sender(1, map[1 := signal, 2 := signal], [], map[1 := Erased(2, 3), 2 := Erased(0, 4)], 5);
    InFirstSlot(signal).(senders := map[1 := s])
  }

  lemma DisconnectsBoth(signal: Bento) returns (tr: seq<State>, acts: seq<Action>)
    requires !signal.Lambda?
    ensures IsRun(tr, acts)
    ensures tr[|acts|] == BothDisconnected(signal)
  {
    tr, acts := FirstSlot(signal);
    assert After([1, 2], 1) == 2;
    Extend(tr, acts, Erase(1, 1));
    tr, acts := tr + [Do(tr[|acts|], Erase(1, 1))], acts + [Erase(1, 1)];
    assert tr[|acts|].senders[1].list == [2];
    Extend(tr, acts, Erase(1, 2));
    tr, acts := tr + [Do(tr[|acts|], Erase(1, 2))], acts + [Erase(1, 2)];
    assert tr[|acts|].senders == BothDisconnected(signal).senders;
  }

  /** A connection can be called after it was disconnected: the first slot disconnects
      both connections, and the second one is called all the same. */
  lemma DisconnectedButCalled(signal: Bento) returns (tr: seq<State>, acts: seq<Action>)
    requires !signal.Lambda?
    ensures IsRun(tr, acts) && |acts| >= 1 && Calls(tr[|acts| - 1], acts[|acts| - 1], tr[|acts|], 0)
    ensures 1 in tr[|acts| - 1].senders && tr[|acts| - 1].stack[0].cursor !in tr[|acts| - 1].senders[1].list
  {
    tr, acts := DisconnectsBoth(signal);
    Extend(tr, acts, Return);
    tr, acts := tr + [Do(tr[|acts|], Return)], acts + [Return];
    Extend(tr, acts, Advance);
    tr, acts := tr + [Do(tr[|acts|], Advance)], acts + [Advance];
  }
}
