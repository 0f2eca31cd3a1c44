/** What a disconnect achieves while its sender is emitting. A traversal that stands
    on an erased node goes on through the frozen next of that node, so a connection
    can be called after it was disconnected; here is exactly when. */
module EmissionDisconnect {
  import opened Dispatch
  import opened Emission
  import opened EmissionTheorems

  /** From x, the next pointers of erased nodes alone lead to c. */
  predicate LeadsTo(s: Sender, x: nat, c: nat)
    decreases if x <= c then c - x else 0
  {
    x == c || (x in s.erased && x < s.erased[x].next <= c && LeadsTo(s, s.erased[x].next, c))
  }

  /** The activation is going to c whatever is disconnected: its traversal stands on
      c, with the slot not yet called, or on a node disconnected before, and frozen
      next pointers lead from there to c. */
  predicate BoundFor(s: Sender, f: Frame, c: nat) {
    LeadsTo(s, f.cursor, c) && !(f.inSlot && f.cursor == c)
  }

  // -------------------------------------------------------------- one sender

  lemma {:induction false} LeadsSame(s: Sender, t: Sender, x: nat, c: nat)
    requires t.erased == s.erased
    ensures LeadsTo(t, x, c) == LeadsTo(s, x, c)
    decreases if x <= c then c - x else 0
  {
    if x in s.erased && x < s.erased[x].next <= c { LeadsSame(s, t, s.erased[x].next, c); }
  }

  /** Nothing that is erased later changes where frozen pointers lead. */
  lemma {:induction false} LeadsErase(s: Sender, id: nat, x: nat, c: nat)
    requires SenderOk(s) && id in s.list && (c == id || c in s.erased)
    ensures LeadsTo(EraseNode(s, id), x, c) == LeadsTo(s, x, c)
    decreases if x <= c then c - x else 0
  {
    if x == id {
      AfterIs(s.list, id);
    } else if x in s.erased && x < s.erased[x].next <= c {
      LeadsErase(s, id, s.erased[x].next, c);
    }
  }

  /** A step of the traversal stays on the way to an erased node c, or leaves c. */
  lemma LeadsNext(s: Sender, x: nat, c: nat)
    requires SenderOk(s) && (x in s.list || x in s.erased) && c in s.erased
    ensures LeadsTo(s, Next(s, x), c) <==> x != c && LeadsTo(s, x, c)
  {
    AfterIs(s.list, x);
    if x in s.erased { assert FrozenOk(s, x); }
  }

  // -------------------------------------------------------------- one step

  lemma LoopBound(st: State, k: nat, c: nat)
    requires Inv(st) && Enabled(st, Advance) && k < |Loop(st).stack| && k + 1 == |st.stack|
    requires st.stack[k].sender in st.senders && c in st.senders[st.stack[k].sender].erased
    requires LeadsFrom(st.senders[st.stack[k].sender], c, st.stack[k].signal)
    ensures BoundStep(st, Advance, Loop(st), k, c)
  {
    var f := st.stack[k];
    var s := st.senders[f.sender];
    assert LiveFrame(st, k);
    LeadsNext(s, f.cursor, c);
    LoopTop(st, k);
    var g := Loop(st).stack[k];
    LeadsSame(s, Loop(st).senders[f.sender], g.cursor, c);
  }

  /** What a step does to a sender and one of its activations, as far as an erased
      connection c is concerned: it is called if the activation was bound for it,
      and not any more afterwards; otherwise being bound for it does not change. */
  predicate BoundStep(st: State, a: Action, after: State, k: nat, c: nat)
    requires k < |st.stack| && k < |after.stack|
  {
    var f, g := st.stack[k], after.stack[k];
    && g.sender == f.sender && f.sender in st.senders && f.sender in after.senders
    && var s, t := st.senders[f.sender], after.senders[f.sender];
       && c in t.erased && LeadsFrom(t, c, f.signal)
       && (BoundFor(s, f, c) <==> BoundFor(t, g, c) || (Calls(st, a, after, k) && f.cursor == c))
  }

  lemma ResumeBound(st: State, threw: bool, k: nat, c: nat)
    requires Inv(st) && k + 1 == |st.stack| && Top(st).inSlot
    requires k < |(if threw then AfterThrow(st) else AfterReturn(st)).stack|
    requires st.stack[k].sender in st.senders && c in st.senders[st.stack[k].sender].erased
    requires LeadsFrom(st.senders[st.stack[k].sender], c, st.stack[k].signal)
    ensures BoundStep(st, if threw then Throw else Return, if threw then AfterThrow(st) else AfterReturn(st), k, c)
  {
    var f := Top(st);
    var s := st.senders[f.sender];
    InSlotsPush(Below(st), f, f.sender);
    assert f.sender !in st.beingDestroyed && s.busy == InSlots(st.stack, f.sender);
    assert LiveFrame(st, k);
    ResumedState(st, threw);
    LeadsNext(s, f.cursor, c);
    LeadsSame(s, s.(busy := s.busy - 1), Next(s, f.cursor), c);
  }

  lemma MovesBound(x: Sender, y: Sender, a: Action, s: nat, f: Frame, c: nat)
    requires SenderOk(x) && Moves(x, y, a, s) && c in x.erased && LeadsFrom(x, c, f.signal)
    ensures c in y.erased && LeadsFrom(y, c, f.signal) && BoundFor(y, f, c) == BoundFor(x, f, c)
  {
    if y.erased == x.erased { LeadsSame(x, y, f.cursor, c); } else { LeadsErase(x, a.id, f.cursor, c); }
  }

  /** A frame that the step does not touch. */
  lemma OtherBound(st: State, a: Action, k: nat, c: nat)
    requires Enabled(st, a) && k < |st.stack| && k < |Do(st, a).stack| && Do(st, a).stack[k] == st.stack[k]
    requires !(a.Advance? && k + 1 == |st.stack|)
    requires st.stack[k].sender in st.senders && st.stack[k].sender in Do(st, a).senders
    requires var x := st.senders[st.stack[k].sender]; SenderOk(x) && c in x.erased && LeadsFrom(x, c, st.stack[k].signal)
    ensures BoundStep(st, a, Do(st, a), k, c)
  {
    var f := st.stack[k];
    SenderMoves(st, a, f.sender);
    MovesBound(st.senders[f.sender], Do(st, a).senders[f.sender], a, f.sender, f, c);
  }

  /** Frames below the last, and all frames when only the user's code moves. */
  lemma Untouched(st: State, a: Action, k: nat)
    requires Enabled(st, a) && k < |st.stack| && k < |Do(st, a).stack|
    requires k + 1 < |st.stack| || !(a.Advance? || a.Return? || a.Throw?)
    ensures Do(st, a).stack[k] == st.stack[k]
  {
  }

  lemma AnyBound(st: State, a: Action, k: nat, c: nat)
    requires Inv(st) && Enabled(st, a) && k < |st.stack| && k < |Do(st, a).stack|
    requires st.stack[k].sender in st.senders && st.stack[k].sender in Do(st, a).senders
    requires c in st.senders[st.stack[k].sender].erased
    requires LeadsFrom(st.senders[st.stack[k].sender], c, st.stack[k].signal)
    ensures BoundStep(st, a, Do(st, a), k, c)
  {
    if k + 1 < |st.stack| || !(a.Advance? || a.Return? || a.Throw?) {
      Untouched(st, a, k);
      OtherBound(st, a, k, c);
    } else {
      TopBound(st, a, k, c);
    }
  }

  lemma TopBound(st: State, a: Action, k: nat, c: nat)
    requires Inv(st) && Enabled(st, a) && k + 1 == |st.stack| && k < |Do(st, a).stack|
    requires a.Advance? || a.Return? || a.Throw?
    requires st.stack[k].sender in st.senders && c in st.senders[st.stack[k].sender].erased
    requires LeadsFrom(st.senders[st.stack[k].sender], c, st.stack[k].signal)
    ensures BoundStep(st, a, Do(st, a), k, c)
  {
    if a.Advance? { LoopBound(st, k, c); } else { ResumeBound(st, a.Throw?, k, c); }
  }

  // -------------------------------------------------------------- runs

  /** As long as the sender lives: an erased connection is called, or still to be
      called, if and only if the activation was bound for it. */
  lemma {:induction false} CalledOrBound(tr: seq<State>, acts: seq<Action>, i: nat, j: nat, k: nat, c: nat)
    requires IsRun(tr, acts) && i <= j < |tr| && Running(tr, i, j, k)
    requires var f := tr[i].stack[k];
             && f.sender in tr[i].senders && f.sender in tr[j].senders
             && c in tr[i].senders[f.sender].erased && LeadsFrom(tr[i].senders[f.sender], c, f.signal)
    ensures var f, g := tr[i].stack[k], tr[j].stack[k];
            && SameFrame(f, g) && c in tr[j].senders[f.sender].erased && LeadsFrom(tr[j].senders[f.sender], c, f.signal)
            && (BoundFor(tr[i].senders[f.sender], f, c) <==>
                  BoundFor(tr[j].senders[f.sender], g, c) || c in Delivered(tr, acts, i, j, k))
    decreases j
  {
    if i < j {
      var st, a := tr[j - 1], acts[j - 1];
      FrameKept(tr, acts, i, j - 1, k);
      FrameKept(tr, acts, i, j, k);
      AliveBefore(tr, acts, j, k);
      CalledOrBound(tr, acts, i, j - 1, k, c);
      RunInv(tr, acts, j - 1);
      AnyBound(st, a, k, c);
    }
  }

  /** The step disconnects c from sender s. */
  predicate Disconnects(a: Action, s: nat, c: nat) {
    a == Erase(s, c)
  }

  /** The disconnecting step itself. */
  lemma JustDisconnected(tr: seq<State>, acts: seq<Action>, m: nat, k: nat, c: nat)
    requires IsRun(tr, acts) && m < |acts| && k < |tr[m].stack| && Disconnects(acts[m], tr[m].stack[k].sender, c)
    ensures var f := tr[m].stack[k];
            && tr[m + 1].stack == tr[m].stack && f.sender in tr[m].senders && f.sender in tr[m + 1].senders
            && var s, t := tr[m].senders[f.sender], tr[m + 1].senders[f.sender];
               && c in t.erased && c in s.signals && t.signals == s.signals
               && BoundFor(t, f, c) == BoundFor(s, f, c)
  {
    RunInv(tr, acts, m);
    assert StepAt(tr, acts, m);
    var f := tr[m].stack[k];
    LeadsErase(tr[m].senders[f.sender], c, f.cursor, c);
  }

  /** What a disconnect achieves. In step m, between the beginning of an activation in
      step i and its return in step j, a connection to its signal is disconnected. The
      activation calls it after that if and only if it was already bound for it. */
  lemma DisconnectTooLate(tr: seq<State>, acts: seq<Action>, i: nat, m: nat, j: nat, c: nat)
    requires IsRun(tr, acts) && i < m < j < |acts| && Activation(tr, acts, i, j) && acts[i].sender in tr[j + 1].senders
    requires Disconnects(acts[m], acts[i].sender, c)
    requires acts[i].sender in tr[m].senders && LeadsFrom(tr[m].senders[acts[i].sender], c, acts[i].signal)
    ensures var s, k := acts[i].sender, |tr[i].stack|;
            c in Delivered(tr, acts, m + 1, j, k) <==> BoundFor(tr[m].senders[s], tr[m].stack[k], c)
  {
    var s, k := acts[i].sender, |tr[i].stack|;
    Begun(tr, acts, i);
    FrameKept(tr, acts, i + 1, m, k);
    JustDisconnected(tr, acts, m, k, c);
    FrameKept(tr, acts, m + 1, j, k);
    RunInv(tr, acts, j);
    assert StepAt(tr, acts, j);
    StillAlive(tr[j], acts[j], k);
    Popped(tr[j], acts[j], k);
    CalledOrBound(tr, acts, m + 1, j, k, c);
    NotBoundAtEnd(tr[j], k, c);
  }

  lemma NotBoundAtEnd(st: State, k: nat, c: nat)
    requires Inv(st) && k < |st.stack| && st.stack[k].cursor == 0 && st.stack[k].sender in st.senders
    requires c in st.senders[st.stack[k].sender].erased
    ensures !BoundFor(st.senders[st.stack[k].sender], st.stack[k], c)
  {
    var s := st.senders[st.stack[k].sender];
    forall x | x in s.erased ensures x > 0 { assert FrozenOk(s, x); }
  }

  /** So a slot whose own connection is listed can disconnect any other connection,
      and itself, for good. */
  lemma DisconnectInTime(tr: seq<State>, acts: seq<Action>, i: nat, m: nat, j: nat, c: nat)
    requires IsRun(tr, acts) && i < m < j < |acts| && Activation(tr, acts, i, j) && acts[i].sender in tr[j + 1].senders
    requires Disconnects(acts[m], acts[i].sender, c)
    requires acts[i].sender in tr[m].senders && LeadsFrom(tr[m].senders[acts[i].sender], c, acts[i].signal)
    requires var f := tr[m].stack[|tr[i].stack|]; f.inSlot && f.cursor in tr[m].senders[acts[i].sender].list
    ensures c !in Delivered(tr, acts, m + 1, j, |tr[i].stack|)
  {
    DisconnectTooLate(tr, acts, i, m, j, c);
    RunInv(tr, acts, m);
  }

  /** A connection that was listed and is not any more was disconnected in between. */
  lemma {:induction false} WasDisconnected(tr: seq<State>, acts: seq<Action>, i: nat, j: nat, c: nat) returns (m: nat)
    requires IsRun(tr, acts) && i < j < |tr| && acts[i].Emit? && Running(tr, i + 1, j, |tr[i].stack|)
    requires var s := acts[i].sender;
             && s in tr[i].senders && s in tr[j].senders && c !in tr[j].senders[s].list
             && Since(tr[j].senders[s], c, tr[i].senders[s].clock)
    ensures i < m < j && Disconnects(acts[m], acts[i].sender, c) && acts[i].sender in tr[m].senders
    ensures c in tr[m].senders[acts[i].sender].signals
    decreases j
  {
    var s := acts[i].sender;
    if j == i + 1 {
      Begun(tr, acts, i);
      RunInv(tr, acts, i);
      SinceNow(tr[i].senders[s], c);
      assert false;
    }
    m := j - 1;
    StartedBy(tr, acts, i, m);
    RunInv(tr, acts, m);
    assert StepAt(tr, acts, m);
    StillAlive(tr[m], acts[m], |tr[i].stack|);
    if !Disconnects(acts[m], s, c) {
      StillUnlisted(tr[m], acts[m], s, c, tr[i].senders[s].clock);
      m := WasDisconnected(tr, acts, i, m, c);
    } else {
      ListedHasSignal(tr[m].senders[s], c);
    }
  }

  lemma ListedHasSignal(s: Sender, c: nat)
    requires SenderOk(s) && c in s.list
    ensures c in s.signals
  {
  }

  lemma StillUnlisted(st: State, a: Action, s: nat, c: nat, t: nat)
    requires Enabled(st, a) && s in st.senders && s in Do(st, a).senders && SenderOk(st.senders[s]) && !Disconnects(a, s, c)
    requires Since(Do(st, a).senders[s], c, t) && c !in Do(st, a).senders[s].list
    ensures Since(st.senders[s], c, t) && c !in st.senders[s].list
  {
    SenderMoves(st, a, s);
    if a.Erase? && a.sender == s { WithoutIs(st.senders[s].list, a.id); }
  }

  /** The same, seen from the call. In step j the activation of step i calls the slot
      of a connection. That connection is disconnected if and only if some step since
      the beginning disconnected it while the activation was bound for it. */
  lemma DisconnectedWhenCalled(tr: seq<State>, acts: seq<Action>, i: nat, j: nat)
    requires IsRun(tr, acts) && i < j < |acts| && acts[i].Emit? && Running(tr, i + 1, j, |tr[i].stack|)
    requires Calls(tr[j], acts[j], tr[j + 1], |tr[i].stack|)
    ensures var s, k := acts[i].sender, |tr[i].stack|; var c := tr[j].stack[k].cursor;
            && s in tr[j].senders
            && (c !in tr[j].senders[s].list <==> exists m :: DisconnectedOnTheWay(tr, acts, i, m, j, c))
  {
    var s, k := acts[i].sender, |tr[i].stack|;
    var c := tr[j].stack[k].cursor;
    CallOfLiving(tr, acts, i, j);
    if c !in tr[j].senders[s].list {
      var m := WasDisconnected(tr, acts, i, j, c);
      CalledSoBound(tr, acts, i, m, j, c);
      assert DisconnectedOnTheWay(tr, acts, i, m, j, c);
    } else if m :| DisconnectedOnTheWay(tr, acts, i, m, j, c) {
      CalledSoBound(tr, acts, i, m, j, c);
    }
  }

  predicate DisconnectedOnTheWay(tr: seq<State>, acts: seq<Action>, i: nat, m: nat, j: nat, c: nat)
    requires |tr| == |acts| + 1 && i < j < |acts| && acts[i].Emit? && Running(tr, i + 1, j, |tr[i].stack|)
  {
    && i < m < j && Disconnects(acts[m], acts[i].sender, c)
    && acts[i].sender in tr[m].senders && BoundFor(tr[m].senders[acts[i].sender], tr[m].stack[|tr[i].stack|], c)
  }

  /** A slot is called for a living sender, and for one of its matching connections. */
  lemma CallOfLiving(tr: seq<State>, acts: seq<Action>, i: nat, j: nat)
    requires IsRun(tr, acts) && i < j < |acts| && acts[i].Emit? && Running(tr, i + 1, j, |tr[i].stack|)
    requires Calls(tr[j], acts[j], tr[j + 1], |tr[i].stack|)
    ensures var s, f := acts[i].sender, tr[j].stack[|tr[i].stack|];
            && s in tr[i].senders && s in tr[j].senders && f.sender == s
            && Since(tr[j].senders[s], f.cursor, tr[i].senders[s].clock)
            && LeadsFrom(tr[j].senders[s], f.cursor, acts[i].signal)
  {
    var k := |tr[i].stack|;
    Begun(tr, acts, i);
    FrameKept(tr, acts, i + 1, j, k);
    RunInv(tr, acts, j);
    assert StepAt(tr, acts, j);
    assert LiveFrame(tr[j], k);
  }

  lemma CalledSoBound(tr: seq<State>, acts: seq<Action>, i: nat, m: nat, j: nat, c: nat)
    requires IsRun(tr, acts) && i < m < j < |acts| && acts[i].Emit? && Running(tr, i + 1, j, |tr[i].stack|)
    requires Calls(tr[j], acts[j], tr[j + 1], |tr[i].stack|) && c == tr[j].stack[|tr[i].stack|].cursor
    requires Disconnects(acts[m], acts[i].sender, c)
    ensures acts[i].sender in tr[m].senders && acts[i].sender in tr[j].senders
    ensures BoundFor(tr[m].senders[acts[i].sender], tr[m].stack[|tr[i].stack|], c)
    ensures c !in tr[j].senders[acts[i].sender].list
  {
    var s, k := acts[i].sender, |tr[i].stack|;
    CallOfLiving(tr, acts, i, j);
    Begun(tr, acts, i);
    FrameKept(tr, acts, i + 1, m, k);
    JustDisconnected(tr, acts, m, k, c);
    SignalUntil(tr, acts, m + 1, j, k, c);
    CalledOrBound(tr, acts, m + 1, j, k, c);
    assert StepAt(tr, acts, j) && BoundFor(tr[j].senders[s], tr[j].stack[k], c);
    RunInv(tr, acts, j);
  }
}
