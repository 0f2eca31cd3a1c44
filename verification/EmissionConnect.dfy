/** What becomes of a connection, named by the actions that make and remove it, while
    its sender may be emitting; and that an activation comes to its end. */
module EmissionConnect {
  import opened Counting
  import opened Dispatch
  import opened Emission
  import opened EmissionTheorems

  // -------------------------------------------------------------- the lists

  /** The element x is cut out, and nothing else. */
  ghost predicate CutOut(q: seq<nat>, r: seq<nat>, x: nat) {
    exists k :: 0 <= k < |q| && q[k] == x && r == q[..k] + q[k + 1..]
  }

  lemma {:induction false} WithoutAt(q: seq<nat>, x: nat) returns (k: nat)
    requires x in q
    ensures k < |q| && q[k] == x && Without(q, x) == q[..k] + q[k + 1..]
  {
    if q[0] == x {
      k := 0;
    } else {
      var m := WithoutAt(q[1..], x);
      k := m + 1;
      assert q[..k] == [q[0]] + q[1..][..m] && q[k + 1..] == q[1..][m + 1..];
    }
  }

  lemma WithoutCuts(q: seq<nat>, x: nat)
    requires x in q
    ensures CutOut(q, Without(q, x), x)
  {
    var k := WithoutAt(q, x);
  }

  /** What each action does to the list of a sender that lives before and after it: a
      Connect puts a new connection to its signal behind all others, whether or not the
      sender is emitting; an Erase cuts out the connection it names; nothing else does
      anything. */
  lemma ListStep(tr: seq<State>, acts: seq<Action>, i: nat, s: nat)
    requires IsRun(tr, acts) && i < |acts| && s in tr[i].senders && s in tr[i + 1].senders
    ensures var x, y := tr[i].senders[s], tr[i + 1].senders[s];
            && (acts[i].Connect? && acts[i].sender == s ==>
                  && y.list == x.list + [x.clock] && x.clock !in x.signals
                  && x.clock in y.signals && y.signals[x.clock] == acts[i].signal)
            && (acts[i].Erase? && acts[i].sender == s ==> CutOut(x.list, y.list, acts[i].id))
            && (!((acts[i].Connect? || acts[i].Erase?) && acts[i].sender == s) ==> y.list == x.list)
            && (forall id :: id in x.signals ==> id in y.signals && y.signals[id] == x.signals[id])
  {
    RunInv(tr, acts, i);
    assert StepAt(tr, acts, i);
    if acts[i].Erase? && acts[i].sender == s { WithoutCuts(tr[i].senders[s].list, acts[i].id); }
    if !((acts[i].Connect? || acts[i].Erase?) && acts[i].sender == s) { OtherLists(tr[i], acts[i], s); }
    SignalsKept(tr[i], acts[i], s);
  }

  lemma OtherLists(st: State, a: Action, s: nat)
    requires Enabled(st, a) && s in st.senders && s in Do(st, a).senders
    requires !((a.Connect? || a.Erase?) && a.sender == s)
    ensures Do(st, a).senders[s].list == st.senders[s].list
  {
    SenderMoves(st, a, s);
  }

  lemma SignalsKept(st: State, a: Action, s: nat)
    requires Enabled(st, a) && s in st.senders && s in Do(st, a).senders && SenderOk(st.senders[s])
    ensures forall id :: id in st.senders[s].signals ==>
              id in Do(st, a).senders[s].signals && Do(st, a).senders[s].signals[id] == st.senders[s].signals[id]
  {
    SenderMoves(st, a, s);
  }

  /** Senders come by Create, with no connection, and go by Destroy. */
  lemma SenderStep(tr: seq<State>, acts: seq<Action>, i: nat, s: nat)
    requires IsRun(tr, acts) && i < |acts|
    ensures s !in tr[i].senders && s in tr[i + 1].senders <==> acts[i] == Create(s)
    ensures acts[i] == Create(s) ==> tr[i + 1].senders[s].list == []
    ensures s in tr[i].senders && s !in tr[i + 1].senders <==> acts[i] == Destroy(s)
  {
    RunInv(tr, acts, i);
    assert StepAt(tr, acts, i);
  }

  /** A slot may do anything with any sender that exists, also with the one that is
      emitting, and return or throw; connections come and go at any time. */
  lemma SlotsMayDoAnything(tr: seq<State>, acts: seq<Action>, i: nat, s: nat, signal: Bento)
    requires IsRun(tr, acts) && i < |tr| && s in tr[i].senders
    ensures Enabled(tr[i], Connect(s, signal))
    ensures forall id :: id in tr[i].senders[s].list ==> Enabled(tr[i], Erase(s, id))
    ensures tr[i].stack != [] && Top(tr[i]).inSlot ==>
              && Enabled(tr[i], Emit(s, signal)) && Enabled(tr[i], Destroy(s))
              && Enabled(tr[i], Return) && Enabled(tr[i], Throw)
    ensures tr[i].stack == [] ==> Enabled(tr[i], Emit(s, signal)) && Enabled(tr[i], Destroy(s))
    ensures tr[i].stack != [] && !Top(tr[i]).inSlot ==> Enabled(tr[i], Advance)
  {
  }

  // -------------------------------------------------------------- one connection

  /** No step from a to b removes connection id of sender s, or s itself. */
  predicate Undisturbed(acts: seq<Action>, a: nat, b: nat, s: nat, id: nat)
    requires b <= |acts|
  {
    forall m :: a <= m < b ==> acts[m] != Erase(s, id) && acts[m] != Destroy(s)
  }

  /** A listed connection stays listed, and its sender alive, until it is removed. */
  lemma {:induction false} StaysListed(tr: seq<State>, acts: seq<Action>, a: nat, b: nat, s: nat, id: nat)
    requires IsRun(tr, acts) && a <= b <= |acts| && Undisturbed(acts, a, b, s, id)
    requires s in tr[a].senders && id in tr[a].senders[s].list && id in tr[a].senders[s].signals
    ensures s in tr[b].senders && id in tr[b].senders[s].list
    ensures id in tr[b].senders[s].signals && tr[b].senders[s].signals[id] == tr[a].senders[s].signals[id]
    decreases b
  {
    if a < b {
      StaysListed(tr, acts, a, b - 1, s, id);
      SenderStep(tr, acts, b - 1, s);
      ListStep(tr, acts, b - 1, s);
    }
  }

  lemma {:induction false} IncreasingOnce(q: seq<nat>, x: nat)
    requires Increasing(q) && x in q
    ensures CountOf(q, x) == 1
  {
    CountOfPositive(q[1..], x);
    if q[0] == x {
      assert x !in q[1..];
    } else {
      IncreasingOnce(q[1..], x);
    }
  }

  /** A connection made in step a, whatever its sender was doing then, is called exactly
      once by every later activation for its signal that has returned before the
      connection or its sender is removed. */
  lemma ConnectedIsCalled(tr: seq<State>, acts: seq<Action>, a: nat, i: nat, j: nat)
    requires IsRun(tr, acts) && a < i < j < |acts| && acts[a].Connect? && acts[a].sender in tr[a].senders
    requires Activation(tr, acts, i, j) && acts[i].sender == acts[a].sender && acts[a].signal.Same(acts[i].signal)
    requires Undisturbed(acts, a, j + 1, acts[a].sender, tr[a].senders[acts[a].sender].clock)
    ensures CountOf(Delivered(tr, acts, i + 1, j, |tr[i].stack|), tr[a].senders[acts[a].sender].clock) == 1
  {
    var s, id := acts[a].sender, tr[a].senders[acts[a].sender].clock;
    SenderStep(tr, acts, a, s);
    ListStep(tr, acts, a, s);
    StaysListed(tr, acts, a + 1, i, s, id);
    StaysListed(tr, acts, a + 1, j + 1, s, id);
    Coverage(tr, acts, i, j);
    assert Stayed(tr[i].senders[s], tr[j + 1].senders[s], id) && LeadsFrom(tr[i].senders[s], id, acts[i].signal);
    IncreasingOnce(Delivered(tr, acts, i + 1, j, |tr[i].stack|), id);
  }


  // -------------------------------------------------------------- the end

  /** How many steps of its own the last activation has left, at most, if nothing is
      connected any more. */
  function Work(st: State): int
    requires st.stack != []
  {
    var f := Top(st);
    if f.sender !in st.senders || f.cursor == 0 then 1
    else 2 * (st.senders[f.sender].clock - f.cursor) + (if f.inSlot then 1 else 2)
  }

  lemma NextLater(s: Sender, x: nat)
    requires SenderOk(s) && (x in s.list || x in s.erased)
    ensures Next(s, x) == 0 || x < Next(s, x) < s.clock
  {
    AfterIs(s.list, x);
    if x in s.erased { assert FrozenOk(s, x); }
  }

  /** Every step of activate, and every return of its slot, by exception or not, brings
      the last activation closer to its end, or is its end. */
  lemma OwnStep(tr: seq<State>, acts: seq<Action>, i: nat)
    requires IsRun(tr, acts) && i < |acts| && (acts[i].Advance? || acts[i].Return? || acts[i].Throw?)
    ensures tr[i].stack != [] && Work(tr[i]) >= 1
    ensures || tr[i + 1].stack == tr[i].stack[..|tr[i].stack| - 1]
            || (|tr[i + 1].stack| == |tr[i].stack| && 0 <= Work(tr[i + 1]) < Work(tr[i]))
  {
    RunInv(tr, acts, i);
    assert StepAt(tr, acts, i);
    CloserToEnd(tr[i], acts[i]);
  }

  lemma CloserToEnd(st: State, a: Action)
    requires Inv(st) && Enabled(st, a) && (a.Advance? || a.Return? || a.Throw?)
    ensures Work(st) >= 1
    ensures || Do(st, a).stack == Below(st)
            || (|Do(st, a).stack| == |st.stack| && 0 <= Work(Do(st, a)) < Work(st))
  {
    var f, k := Top(st), |st.stack| - 1;
    assert LiveFrame(st, k);
    if f.sender !in st.senders {
      DeadTop(st);
    } else {
      var s := st.senders[f.sender];
      if f.cursor != 0 {
        assert SenderOk(s);
        if f.cursor in s.erased { assert FrozenOk(s, f.cursor); }
        NextLater(s, f.cursor);
      }
      if a.Advance? { LoopCloser(st); } else { ResumeCloser(st, a.Throw?); }
    }
  }

  lemma LoopCloser(st: State)
    requires st.stack != [] && !Top(st).inSlot && Top(st).sender in st.senders
    requires var s, c := st.senders[Top(st).sender], Top(st).cursor;
             c != 0 ==> c in s.signals && c < s.clock && (Next(s, c) == 0 || c < Next(s, c) < s.clock)
    ensures || Loop(st).stack == Below(st)
            || (|Loop(st).stack| == |st.stack| && 0 <= Work(Loop(st)) < Work(st))
  {
  }

  lemma ResumeCloser(st: State, threw: bool)
    requires Inv(st) && st.stack != [] && Top(st).inSlot && Top(st).sender in st.senders
    requires var s, c := st.senders[Top(st).sender], Top(st).cursor;
             c != 0 && c < s.clock && (Next(s, c) == 0 || c < Next(s, c) < s.clock)
    ensures var t := if threw then AfterThrow(st) else AfterReturn(st);
            |t.stack| == |st.stack| && 0 <= Work(t) < Work(st)
  {
    var f := Top(st);
    InSlotsPush(Below(st), f, f.sender);
    assert f.sender !in st.beingDestroyed && st.senders[f.sender].busy == InSlots(st.stack, f.sender);
    ResumedState(st, threw);
  }

  /** The activation on its own, with slots that do nothing but return. */
  function Alone(st: State, n: nat): State
    decreases n
  {
    if n == 0 || st.stack == [] then st
    else Alone(if Top(st).inSlot then AfterReturn(st) else Loop(st), n - 1)
  }

  lemma {:induction false} EndsAlone(st: State) returns (n: nat)
    requires Inv(st) && st.stack != []
    ensures n <= Work(st) && Alone(st, n).stack == Below(st)
    decreases Work(st)
  {
    var a := if Top(st).inSlot then Return else Advance;
    CloserToEnd(st, a);
    DoInv(st, a);
    var t := Do(st, a);
    if t.stack == Below(st) {
      n := 1;
      assert Alone(t, 0) == t;
    } else {
      LowerSame(st, a);
      var m := EndsAlone(t);
      n := m + 1;
    }
  }

  lemma LowerSame(st: State, a: Action)
    requires Inv(st) && Enabled(st, a) && (a.Advance? || a.Return?) && |Do(st, a).stack| == |st.stack|
    ensures Below(Do(st, a)) == Below(st)
  {
    forall k | 0 <= k < |st.stack| - 1 ensures Do(st, a).stack[k] == st.stack[k] { LowerFrame(st, a, k); }
  }

  lemma LowerFrame(st: State, a: Action, k: nat)
    requires Enabled(st, a) && (a.Advance? || a.Return?) && k + 1 < |st.stack| && |Do(st, a).stack| == |st.stack|
    ensures Do(st, a).stack[k] == st.stack[k]
  {
  }

  /** In every reachable state the last activation, left to itself and to slots that do
      nothing but return, comes to its end. */
  lemma ActivationEnds(tr: seq<State>, acts: seq<Action>, i: nat) returns (n: nat)
    requires IsRun(tr, acts) && i < |tr| && tr[i].stack != []
    ensures n <= Work(tr[i]) && Alone(tr[i], n).stack == tr[i].stack[..|tr[i].stack| - 1]
  {
    RunInv(tr, acts, i);
    n := EndsAlone(tr[i]);
  }
}
