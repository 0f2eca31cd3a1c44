/** The two-sided registry of connections: a sender lists its connections, a
    receiver lists its possible senders, and connect, disconnect and the two
    destructors keep both sides in agreement.

    The lists are the sequences that RcuList.List refines; a loop that erases the
    element it stands on goes on with the next one, as proved there. */
module Registry {
  import opened Dispatch
  import opened Options
  import opened Counting

  datatype ConnectionKind = AutoConnection | DirectConnection | QueuedConnection | BlockingQueuedConnection

  datatype Connection = Connection(signal: Bento, receiver: SlotBase, slot: Bento, kind: ConnectionKind)

  class SignalBase {
    var connectList: seq<Connection>

    constructor ()
      ensures connectList == []
    {
      connectList := [];
    }
  }

  class SlotBase {
    var possibleSenders: seq<SignalBase>

    constructor ()
      ensures possibleSenders == []
    {
      possibleSenders := [];
    }
  }

  // -------------------------------------------------------------- counting

  /** How many of the connections lead to r. */
  function CountTo(q: seq<Connection>, r: SlotBase): nat {
    if q == [] then 0 else (if q[0].receiver == r then 1 else 0) + CountTo(q[1..], r)
  }

  lemma {:induction false} CountToAppend(a: seq<Connection>, b: seq<Connection>, r: SlotBase)
    ensures CountTo(a + b, r) == CountTo(a, r) + CountTo(b, r)
  {
    if a == [] {
      assert a + b == b;
    } else {
      CountToAppend(a[1..], b, r);
      assert (a + b)[1..] == a[1..] + b;
    }
  }

  lemma {:induction false} CountToPositive(q: seq<Connection>, r: SlotBase)
    ensures CountTo(q, r) > 0 <==> exists i :: 0 <= i < |q| && q[i].receiver == r
  {
    if q != [] {
      CountToPositive(q[1..], r);
      if i :| 0 <= i < |q[1..]| && q[1..][i].receiver == r { assert q[i + 1].receiver == r; }
      if i :| 0 <= i < |q| && q[i].receiver == r { assert i > 0 ==> q[1..][i - 1].receiver == r; }
    }
  }

  lemma CountToCut(q: seq<Connection>, k: nat, r: SlotBase)
    requires k < |q|
    ensures CountTo(CutAt(q, k), r) == CountTo(q, r) - (if q[k].receiver == r then 1 else 0)
  {
    assert q == q[..k] + ([q[k]] + q[k + 1..]);
    CountToAppend(q[..k], [q[k]] + q[k + 1..], r);
    CountToAppend([q[k]], q[k + 1..], r);
    CountToAppend(q[..k], q[k + 1..], r);
  }

  // -------------------------------------------------------------- agreement

  /** Both sides name only living objects, and for every sender and receiver they
      agree on how many connections there are. */
  ghost predicate Agree(senders: set<SignalBase>, receivers: set<SlotBase>)
    reads senders, receivers
  {
    && (forall s, i :: s in senders && 0 <= i < |s.connectList| ==> s.connectList[i].receiver in receivers)
    && (forall r, i :: r in receivers && 0 <= i < |r.possibleSenders| ==> r.possibleSenders[i] in senders)
    && (forall s, r :: s in senders && r in receivers ==> CountTo(s.connectList, r) == CountOf(r.possibleSenders, s))
  }

  /** SignalBase::addConnection. */
  method AddConnection(sender: SignalBase, c: Connection, ghost senders: set<SignalBase>, ghost receivers: set<SlotBase>)
    requires Agree(senders, receivers) && sender in senders && c.receiver in receivers
    modifies sender, c.receiver
    ensures Agree(senders, receivers)
    ensures sender.connectList == old(sender.connectList) + [c]
    ensures c.receiver.possibleSenders == old(c.receiver.possibleSenders) + [sender]
  {
    forall s, r | s in senders && r in receivers
      ensures CountTo(s.connectList + [c], r) == CountTo(s.connectList, r) + (if c.receiver == r then 1 else 0)
      ensures CountOf(r.possibleSenders + [sender], s) == CountOf(r.possibleSenders, s) + (if s == sender then 1 else 0)
    {
      CountToAppend(s.connectList, [c], r);
      CountOfAppend(r.possibleSenders, [sender], s);
    }
    sender.connectList := sender.connectList + [c];
    c.receiver.possibleSenders := c.receiver.possibleSenders + [sender];
  }

  // -------------------------------------------------------------- connect

  /** The overloads of connect: two member pointers, a member pointer and a lambda
      or function, or two Bento objects. */
  datatype Overload = MemberPointers | SlotLambda | BentoPair

  datatype Outcome = Connected | AlreadyConnected | InvalidArgument

  /** What a unique connection must not find: the overload for lambdas cannot
      compare slots and does not try. */
  predicate Clashes(item: Connection, c: Connection, overload: Overload) {
    item.receiver == c.receiver && item.signal.Same(c.signal) && (overload.SlotLambda? || item.slot.Same(c.slot))
  }

  /** In plain equalities: the same receiver, equal signals that are no lambdas and,
      except in the overload for lambdas, equal slots that are no lambdas. */
  lemma ClashRule(item: Connection, c: Connection, overload: Overload)
    ensures Clashes(item, c, overload) <==>
              && item.receiver == c.receiver && item.signal == c.signal && !c.signal.Lambda?
              && (overload == SlotLambda || (item.slot == c.slot && !c.slot.Lambda?))
  {
  }

  /** connect, where None stands for a null pointer that connect rejects: it tests the
      member pointers that are passed as such, and nothing else. */
  method Connect(overload: Overload, sender: SignalBase, signal: Option<Bento>, receiver: SlotBase, slot: Option<Bento>,
                 kind: ConnectionKind, unique: bool, ghost senders: set<SignalBase>, ghost receivers: set<SlotBase>)
    returns (outcome: Outcome)
    requires Agree(senders, receivers) && sender in senders && receiver in receivers
    requires (overload.BentoPair? ==> signal.Some?) && (!overload.MemberPointers? ==> slot.Some?)
    modifies sender, receiver
    ensures Agree(senders, receivers)
    ensures outcome == InvalidArgument <==> signal.None? || slot.None?
    ensures outcome == AlreadyConnected <==>
              && signal.Some? && slot.Some? && unique
              && exists i :: 0 <= i < |old(sender.connectList)|
                   && Clashes(old(sender.connectList)[i], Connection(signal.value, receiver, slot.value, kind), overload)
    ensures outcome == Connected ==>
              && sender.connectList == old(sender.connectList) + [Connection(signal.value, receiver, slot.value, kind)]
              && receiver.possibleSenders == old(receiver.possibleSenders) + [sender]
    ensures outcome != Connected ==> unchanged(sender) && unchanged(receiver)
  {
    if signal.None? || slot.None? { return InvalidArgument; }
    var c := Connection(signal.value, receiver, slot.value, kind);
    if unique {
      var i := 0;
      while i < |sender.connectList|
        invariant 0 <= i <= |sender.connectList|
        invariant forall j :: 0 <= j < i ==> !Clashes(sender.connectList[j], c, overload)
      {
        if Clashes(sender.connectList[i], c, overload) { return AlreadyConnected; }
        i := i + 1;
      }
    }
    AddConnection(sender, c, senders, receivers);
    outcome := Connected;
  }

  // -------------------------------------------------------------- disconnect

  /** The arguments of internal_disconnect; absent stands for a null pointer. */
  datatype Request = Request(signal: Option<Bento>, receiver: SlotBase?, slot: Option<Bento>)
  {
    /** The matching rule, branch by branch. */
    predicate Matches(temp: Connection) {
      if signal.None? && receiver == null then true
      else if receiver != null then
        receiver == temp.receiver
        && if signal.None? then slot.None? || slot.value.Same(temp.slot)
           else signal.value.Same(temp.signal) && (slot.None? || slot.value.Same(temp.slot))
      else signal.value.Same(temp.signal)
    }
  }

  /** A request constrains what it names, except that a slot counts only together
      with a receiver; a lambda named as signal or slot matches nothing. */
  lemma MatchingRule(q: Request, temp: Connection)
    ensures q.Matches(temp) <==>
              && (q.signal.Some? ==> !q.signal.value.Lambda? && q.signal.value == temp.signal)
              && (q.receiver != null ==> q.receiver == temp.receiver)
              && (q.receiver != null && q.slot.Some? ==> !q.slot.value.Lambda? && q.slot.value == temp.slot)
  {
  }

  /** q without the connections that match. */
  function Unmatched(q: seq<Connection>, request: Request): seq<Connection> {
    if q == [] then []
    else if request.Matches(q[0]) then Unmatched(q[1..], request)
    else [q[0]] + Unmatched(q[1..], request)
  }

  lemma {:induction false} UnmatchedAppend(a: seq<Connection>, b: seq<Connection>, request: Request)
    ensures Unmatched(a + b, request) == Unmatched(a, request) + Unmatched(b, request)
  {
    if a == [] {
      assert a + b == b;
    } else {
      UnmatchedAppend(a[1..], b, request);
      assert (a + b)[1..] == a[1..] + b && (a + b)[0] == a[0];
    }
  }

  /** What disconnect leaves: the connections that do not match, in order. */
  lemma {:induction false} UnmatchedSelects(q: seq<Connection>, request: Request) returns (at: seq<nat>)
    ensures Selection(q, Unmatched(q, request), at) && forall i: nat :: i in at <==> i < |q| && !request.Matches(q[i])
  {
    at := [];
    if q != [] {
      at := UnmatchedSelects(q[1..], request);
      if request.Matches(q[0]) { at := SelectTail(q, Unmatched(q[1..], request), at); }
      else { at := SelectHead(q, Unmatched(q[1..], request), at); }
    }
  }

  lemma {:induction false} UnmatchedShorter(q: seq<Connection>, request: Request)
    ensures |Unmatched(q, request)| <= |q|
    ensures |Unmatched(q, request)| < |q| <==> exists i :: 0 <= i < |q| && request.Matches(q[i])
  {
    if q != [] {
      UnmatchedShorter(q[1..], request);
      if i :| 0 <= i < |q[1..]| && request.Matches(q[1..][i]) { assert request.Matches(q[i + 1]); }
      if i :| 0 <= i < |q| && request.Matches(q[i]) { assert i > 0 ==> q[1..][i - 1] == q[i]; }
    }
  }

  /** The loop of disconnect has reached c[i]: what the list holds then. */
  function Stage(c: seq<Connection>, i: nat, request: Request): (stage: seq<Connection>)
    requires i <= |c|
    ensures |stage| == |Unmatched(c[..i], request)| + |c| - i
  {
    Unmatched(c[..i], request) + c[i..]
  }

  lemma StageStep(c: seq<Connection>, i: nat, request: Request)
    requires i < |c|
    ensures var stage, k := Stage(c, i, request), |Unmatched(c[..i], request)|;
            && stage[k] == c[i]
            && Stage(c, i + 1, request) == (if request.Matches(c[i]) then CutAt(stage, k) else stage)
            && |Unmatched(c[..i + 1], request)| == (if request.Matches(c[i]) then k else k + 1)
  {
    var before := Unmatched(c[..i], request);
    UnmatchedAppend(c[..i], [c[i]], request);
    assert c[..i + 1] == c[..i] + [c[i]];
    var stage := before + c[i..];
    assert stage[..|before|] == before && stage[|before| + 1..] == c[i + 1..];
    assert Unmatched([c[i]], request) == if request.Matches(c[i]) then [] else [c[i]];
    assert before + [c[i]] + c[i + 1..] == stage;
  }

  /** The loop, at position k of the list, has examined i of the connections c. */
  predicate Reached(list: seq<Connection>, c: seq<Connection>, i: nat, k: nat, request: Request) {
    i <= |c| && list == Stage(c, i, request) && k == |Unmatched(c[..i], request)|
  }

  lemma ReachedEnd(list: seq<Connection>, c: seq<Connection>, i: nat, k: nat, request: Request)
    requires Reached(list, c, i, k, request)
    ensures if k < |list| then i < |c| else i == |c| && list == Unmatched(c, request) && k == |list|
  {
    assert c[..|c|] == c;
  }

  /** q without its first n occurrences of s. */
  function DropFirst(q: seq<SignalBase>, s: SignalBase, n: nat): seq<SignalBase> {
    if n == 0 || q == [] then q
    else if q[0] == s then DropFirst(q[1..], s, n - 1)
    else [q[0]] + DropFirst(q[1..], s, n)
  }

  lemma CountPrefix(q: seq<SignalBase>, s: SignalBase, i: nat)
    requires 0 < i <= |q|
    ensures CountOf(q[..i], s) == (if q[0] == s then 1 else 0) + CountOf(q[1..][..i - 1], s)
  {
    assert q[..i][1..] == q[1..][..i - 1];
  }

  /** Whether position i survives: it is no mention, or there were n before it. */
  predicate Survives(q: seq<SignalBase>, s: SignalBase, n: nat, i: nat) {
    i < |q| && (q[i] != s || CountOf(q[..i], s) >= n)
  }

  lemma SurvivesTail(q: seq<SignalBase>, s: SignalBase, n: nat, i: nat)
    requires 0 < i && q != []
    ensures Survives(q, s, n, i) <==> Survives(q[1..], s, if q[0] == s && n > 0 then n - 1 else n, i - 1)
  {
    if i < |q| { CountPrefix(q, s, i); }
  }

  lemma DropFirstNone(q: seq<SignalBase>, s: SignalBase)
    requires q != []
    ensures DropFirst(q, s, 0) == [q[0]] + DropFirst(q[1..], s, 0)
  {
  }

  /** What disconnect leaves of a receiver's list: all but the first n mentions. */
  lemma {:induction false} DropFirstSelects(q: seq<SignalBase>, s: SignalBase, n: nat) returns (at: seq<nat>)
    ensures Selection(q, DropFirst(q, s, n), at)
    ensures forall i: nat :: i in at <==> Survives(q, s, n, i)
  {
    at := [];
    if q != [] {
      var m := if q[0] == s && n > 0 then n - 1 else n;
      var tail := DropFirstSelects(q[1..], s, m);
      var rest := DropFirst(q[1..], s, m);
      if q[0] == s && n > 0 {
        at := SelectTail(q, rest, tail);
      } else {
        if n == 0 { DropFirstNone(q, s); }
        at := SelectHead(q, rest, tail);
      }
      forall i: nat ensures i in at <==> Survives(q, s, n, i) {
        if i > 0 { SurvivesTail(q, s, n, i); }
      }
    }
  }

  lemma {:induction false} DropOneMore(q: seq<SignalBase>, s: SignalBase, n: nat, at: nat)
    requires var d := DropFirst(q, s, n); at < |d| && d[at] == s && forall j :: 0 <= j < at ==> d[j] != s
    ensures DropFirst(q, s, n + 1) == CutAt(DropFirst(q, s, n), at)
  {
    var d := DropFirst(q, s, n);
    if q[0] == s {
      if n > 0 { DropOneMore(q[1..], s, n - 1, at); }
      else { assert at == 0; assert DropFirst(q[1..], s, 0) == q[1..]; }
    } else {
      var rest := DropFirst(q[1..], s, n);
      assert d == [q[0]] + rest;
      assert rest == d[1..];
      DropOneMore(q[1..], s, n, at - 1);
      assert CutAt(d, at) == [q[0]] + CutAt(rest, at - 1);
    }
  }

  /** find in the list of possible senders. */
  method Find(q: seq<SignalBase>, s: SignalBase) returns (at: nat)
    ensures at <= |q| && (forall j :: 0 <= j < at ==> q[j] != s) && (at < |q| ==> q[at] == s)
    ensures at < |q| <==> s in q
  {
    at := 0;
    while at < |q|
      invariant at <= |q| && forall j :: 0 <= j < at ==> q[j] != s
    {
      if q[at] == s { return; }
      at := at + 1;
    }
  }

  /** What disconnect has done to a receiver: it lost the sender once for every
      connection to it that is gone from the sender's list. */
  predicate Lost(c: seq<Connection>, q: seq<Connection>, r: SlotBase, s: SignalBase, was: seq<SignalBase>, now: seq<SignalBase>) {
    CountTo(q, r) <= CountTo(c, r) && now == DropFirst(was, s, CountTo(c, r) - CountTo(q, r))
  }

  lemma LostOneMore(c: seq<Connection>, q: seq<Connection>, k: nat, s: SignalBase, was: seq<SignalBase>, now: seq<SignalBase>, at: nat)
    requires k < |q| && Lost(c, q, q[k].receiver, s, was, now)
    requires at < |now| && now[at] == s && forall j :: 0 <= j < at ==> now[j] != s
    ensures Lost(c, CutAt(q, k), q[k].receiver, s, was, CutAt(now, at))
  {
    var r := q[k].receiver;
    CountToCut(q, k, r);
    DropOneMore(was, s, CountTo(c, r) - CountTo(q, r), at);
  }

  lemma LostElsewhere(c: seq<Connection>, q: seq<Connection>, k: nat, r: SlotBase, s: SignalBase, was: seq<SignalBase>, now: seq<SignalBase>)
    requires k < |q| && q[k].receiver != r && Lost(c, q, r, s, was, now)
    ensures Lost(c, CutAt(q, k), r, s, was, now)
  {
    CountToCut(q, k, r);
  }

  ghost predicate Dropped(sender: SignalBase, c: seq<Connection>, receivers: set<SlotBase>, origin: map<SlotBase, seq<SignalBase>>)
    reads sender, receivers
  {
    forall r :: r in receivers ==> r in origin && Lost(c, sender.connectList, r, sender, origin[r], r.possibleSenders)
  }

  /** Removing one connection on both sides keeps the agreement; the receiver's
      list does hold the sender, and loses its first occurrence. */
  method RemoveConnection(sender: SignalBase, k: nat, r: SlotBase, ghost senders: set<SignalBase>, ghost receivers: set<SlotBase>)
    returns (ghost at: nat)
    requires Agree(senders, receivers) && sender in senders
    requires k < |sender.connectList| && sender.connectList[k].receiver == r
    modifies sender, r
    ensures Agree(senders, receivers)
    ensures sender.connectList == CutAt(old(sender.connectList), k)
    ensures at < |old(r.possibleSenders)| && old(r.possibleSenders)[at] == sender
    ensures forall j :: 0 <= j < at ==> old(r.possibleSenders)[j] != sender
    ensures r.possibleSenders == CutAt(old(r.possibleSenders), at)
  {
    CountToPositive(sender.connectList, r);
    CountOfPositive(r.possibleSenders, sender);
    var pos := Find(r.possibleSenders, sender);
    forall x | x in receivers { CountToCut(sender.connectList, k, x); }
    forall s | s in senders { CountOfCut(r.possibleSenders, pos, s); }
    r.possibleSenders := CutAt(r.possibleSenders, pos);
    sender.connectList := CutAt(sender.connectList, k);
    at := pos;
  }

  /** The same, seen from the start of disconnect. */
  method DropConnection(sender: SignalBase, k: nat, r: SlotBase, ghost senders: set<SignalBase>, ghost receivers: set<SlotBase>,
                        ghost c: seq<Connection>, ghost origin: map<SlotBase, seq<SignalBase>>)
    requires Agree(senders, receivers) && sender in senders && r in receivers && Dropped(sender, c, receivers, origin)
    requires k < |sender.connectList| && sender.connectList[k].receiver == r
    modifies sender, r
    ensures Agree(senders, receivers) && Dropped(sender, c, receivers, origin)
    ensures sender.connectList == CutAt(old(sender.connectList), k)
  {
    ghost var q, was := sender.connectList, r.possibleSenders;
    ghost var at := RemoveConnection(sender, k, r, senders, receivers);
    LostOneMore(c, q, k, sender, origin[r], was, at);
    forall x | x in receivers && x != r ensures Lost(c, sender.connectList, x, sender, origin[x], x.possibleSenders) {
      LostElsewhere(c, q, k, x, sender, origin[x], x.possibleSenders);
    }
  }

  /** One round of the loop, which has examined i of the original connections c and
      stands at position k of the list. */
  method Round(sender: SignalBase, request: Request, k: nat, ghost c: seq<Connection>, ghost i: nat,
               ghost origin: map<SlotBase, seq<SignalBase>>, ghost senders: set<SignalBase>, ghost receivers: set<SlotBase>)
    returns (hit: bool)
    requires Agree(senders, receivers) && sender in senders && i < |c|
    requires Reached(sender.connectList, c, i, k, request) && Dropped(sender, c, receivers, origin)
    modifies sender, receivers
    ensures Agree(senders, receivers) && hit == request.Matches(c[i])
    ensures Reached(sender.connectList, c, i + 1, if hit then k else k + 1, request)
    ensures Dropped(sender, c, receivers, origin)
  {
    StageStep(c, i, request);
    var temp := sender.connectList[k];
    hit := request.Matches(temp);
    if hit {
      DropConnection(sender, k, temp.receiver, senders, receivers, c, origin);
    }
  }

  /** internal_disconnect. */
  method Disconnect(sender: SignalBase, request: Request, ghost senders: set<SignalBase>, ghost receivers: set<SlotBase>)
    returns (any: bool)
    requires Agree(senders, receivers) && sender in senders
    modifies sender, receivers
    ensures Agree(senders, receivers)
    ensures sender.connectList == Unmatched(old(sender.connectList), request)
    ensures any <==> exists i :: 0 <= i < |old(sender.connectList)| && request.Matches(old(sender.connectList)[i])
    ensures forall r :: r in receivers ==>
              Lost(old(sender.connectList), sender.connectList, r, sender, old(r.possibleSenders), r.possibleSenders)
  {
    ghost var origin := map r | r in receivers :: r.possibleSenders;
    any := DisconnectLoop(sender, request, origin, senders, receivers);
    UnmatchedShorter(old(sender.connectList), request);
  }

  method DisconnectLoop(sender: SignalBase, request: Request, ghost origin: map<SlotBase, seq<SignalBase>>,
                        ghost senders: set<SignalBase>, ghost receivers: set<SlotBase>)
    returns (any: bool)
    requires Agree(senders, receivers) && sender in senders && Dropped(sender, sender.connectList, receivers, origin)
    modifies sender, receivers
    ensures Agree(senders, receivers)
    ensures sender.connectList == Unmatched(old(sender.connectList), request)
    ensures any <==> |sender.connectList| < |old(sender.connectList)|
    ensures Dropped(sender, old(sender.connectList), receivers, origin)
  {
    any := false;
    ghost var c, i := sender.connectList, 0;
    var k := 0;
    assert c[..0] == [];
    while k < |sender.connectList|
      invariant Agree(senders, receivers) && Reached(sender.connectList, c, i, k, request)
      invariant any == (k < i) && k <= i <= |c|
      invariant Dropped(sender, c, receivers, origin)
      decreases |c| - i
    {
      ReachedEnd(sender.connectList, c, i, k, request);
      var hit := Round(sender, request, k, c, i, origin, senders, receivers);
      any := any || hit;
      if !hit { k := k + 1; }
      i := i + 1;
    }
    ReachedEnd(sender.connectList, c, i, k, request);
  }

  // -------------------------------------------------------------- destructors

  ghost function Lists(senders: set<SignalBase>): map<SignalBase, seq<Connection>>
    reads senders
  {
    map s | s in senders :: s.connectList
  }

  ghost function Possible(receivers: set<SlotBase>): map<SlotBase, seq<SignalBase>>
    reads receivers
  {
    map r | r in receivers :: r.possibleSenders
  }

  /** Agreement of two snapshots. */
  ghost predicate Tally(lists: map<SignalBase, seq<Connection>>, possible: map<SlotBase, seq<SignalBase>>) {
    && (forall s, c :: s in lists && c in lists[s] ==> c.receiver in possible)
    && (forall r, s :: r in possible && s in possible[r] ==> s in lists)
    && (forall s, r :: s in lists && r in possible ==> CountTo(lists[s], r) == CountOf(possible[r], s))
  }

  lemma AgreeTally(senders: set<SignalBase>, receivers: set<SlotBase>)
    ensures Agree(senders, receivers) <==> Tally(Lists(senders), Possible(receivers))
  {
    var lists, possible := Lists(senders), Possible(receivers);
    if Tally(lists, possible) {
      forall s, i | s in senders && 0 <= i < |s.connectList| ensures s.connectList[i].receiver in receivers {
        assert s.connectList[i] in lists[s];
      }
      forall r, i | r in receivers && 0 <= i < |r.possibleSenders| ensures r.possibleSenders[i] in senders {
        assert r.possibleSenders[i] in possible[r] && r.possibleSenders[i] in lists;
      }
      forall s, r | s in senders && r in receivers ensures CountTo(s.connectList, r) == CountOf(r.possibleSenders, s) {
        assert s in lists && r in possible;
      }
    }
  }

  function WithoutSender(q: seq<SignalBase>, s: SignalBase): seq<SignalBase> {
    if q == [] then []
    else if q[0] == s then WithoutSender(q[1..], s)
    else [q[0]] + WithoutSender(q[1..], s)
  }

  function WithoutReceiver(q: seq<Connection>, r: SlotBase): seq<Connection> {
    if q == [] then []
    else if q[0].receiver == r then WithoutReceiver(q[1..], r)
    else [q[0]] + WithoutReceiver(q[1..], r)
  }

  lemma {:induction false} WithoutSenderCounts(q: seq<SignalBase>, s: SignalBase, x: SignalBase)
    ensures CountOf(WithoutSender(q, s), x) == if x == s then 0 else CountOf(q, x)
    ensures forall y :: y in WithoutSender(q, s) ==> y in q && y != s
    ensures s !in q ==> WithoutSender(q, s) == q
  {
    if q != [] {
      WithoutSenderCounts(q[1..], s, x);
      assert CountOf([q[0]], x) == if q[0] == x then 1 else 0;
      if q[0] != s { CountOfAppend([q[0]], WithoutSender(q[1..], s), x); }
    }
  }

  lemma {:induction false} WithoutReceiverCounts(q: seq<Connection>, r: SlotBase, x: SlotBase)
    ensures CountTo(WithoutReceiver(q, r), x) == if x == r then 0 else CountTo(q, x)
    ensures forall y :: y in WithoutReceiver(q, r) ==> y in q && y.receiver != r
    ensures CountTo(q, r) == 0 ==> WithoutReceiver(q, r) == q
  {
    if q != [] {
      WithoutReceiverCounts(q[1..], r, x);
      assert CountTo([q[0]], x) == if q[0].receiver == x then 1 else 0;
      if q[0].receiver != r { CountToAppend([q[0]], WithoutReceiver(q[1..], r), x); }
    }
  }

  /** What is left of a receiver's list: the mentions of other senders, in order. */
  lemma {:induction false} WithoutSenderSelects(q: seq<SignalBase>, s: SignalBase) returns (at: seq<nat>)
    ensures Selection(q, WithoutSender(q, s), at) && forall i: nat :: i in at <==> i < |q| && q[i] != s
  {
    at := [];
    if q != [] {
      at := WithoutSenderSelects(q[1..], s);
      if q[0] == s { at := SelectTail(q, WithoutSender(q[1..], s), at); }
      else { at := SelectHead(q, WithoutSender(q[1..], s), at); }
    }
  }

  /** What is left of a sender's list: the connections to other receivers, in order. */
  lemma {:induction false} WithoutReceiverSelects(q: seq<Connection>, r: SlotBase) returns (at: seq<nat>)
    ensures Selection(q, WithoutReceiver(q, r), at) && forall i: nat :: i in at <==> i < |q| && q[i].receiver != r
  {
    at := [];
    if q != [] {
      at := WithoutReceiverSelects(q[1..], r);
      if q[0].receiver == r { at := SelectTail(q, WithoutReceiver(q[1..], r), at); }
      else { at := SelectHead(q, WithoutReceiver(q[1..], r), at); }
    }
  }

  /** The destructors' inner loop over one receiver's list. */
  method EraseSender(r: SlotBase, s: SignalBase)
    modifies r
    ensures r.possibleSenders == WithoutSender(old(r.possibleSenders), s)
  {
    ghost var q := r.possibleSenders;
    var k := 0;
    while k < |r.possibleSenders|
      invariant k <= |r.possibleSenders|
      invariant WithoutSender(q, s) == r.possibleSenders[..k] + WithoutSender(r.possibleSenders[k..], s)
      decreases |r.possibleSenders| - k
    {
      ghost var rest := r.possibleSenders[k..];
      if r.possibleSenders[k] == s {
        ghost var before := r.possibleSenders;
        r.possibleSenders := CutAt(r.possibleSenders, k);
        assert r.possibleSenders[..k] == before[..k] && r.possibleSenders[k..] == rest[1..];
      } else {
        assert r.possibleSenders[..k + 1] == r.possibleSenders[..k] + [rest[0]] && r.possibleSenders[k + 1..] == rest[1..];
        k := k + 1;
      }
    }
    assert r.possibleSenders[..k] == r.possibleSenders;
  }

  /** The destructors' inner loop over one sender's list. */
  method EraseReceiver(s: SignalBase, r: SlotBase)
    modifies s
    ensures s.connectList == WithoutReceiver(old(s.connectList), r)
  {
    ghost var q := s.connectList;
    var k := 0;
    while k < |s.connectList|
      invariant k <= |s.connectList|
      invariant WithoutReceiver(q, r) == s.connectList[..k] + WithoutReceiver(s.connectList[k..], r)
      decreases |s.connectList| - k
    {
      ghost var rest := s.connectList[k..];
      if s.connectList[k].receiver == r {
        ghost var before := s.connectList;
        s.connectList := CutAt(s.connectList, k);
        assert s.connectList[..k] == before[..k] && s.connectList[k..] == rest[1..];
      } else {
        assert s.connectList[..k + 1] == s.connectList[..k] + [rest[0]] && s.connectList[k + 1..] == rest[1..];
        k := k + 1;
      }
    }
    assert s.connectList[..k] == s.connectList;
  }

  lemma {:induction false} WithoutSenderTwice(q: seq<SignalBase>, s: SignalBase)
    ensures WithoutSender(WithoutSender(q, s), s) == WithoutSender(q, s)
  {
    WithoutSenderCounts(q, s, s);
    WithoutSenderCounts(WithoutSender(q, s), s, s);
  }

  lemma {:induction false} WithoutReceiverTwice(q: seq<Connection>, r: SlotBase)
    ensures WithoutReceiver(WithoutReceiver(q, r), r) == WithoutReceiver(q, r)
  {
    WithoutReceiverCounts(q, r, r);
    WithoutReceiverCounts(WithoutReceiver(q, r), r, r);
  }

  lemma TallyWithoutSender(lists: map<SignalBase, seq<Connection>>, possible: map<SlotBase, seq<SignalBase>>, sender: SignalBase,
                           left: map<SlotBase, seq<SignalBase>>)
    requires Tally(lists, possible) && left.Keys == possible.Keys
    requires forall r :: r in left ==> left[r] == WithoutSender(possible[r], sender)
    ensures Tally(lists - {sender}, left)
  {
    forall r, s | r in left && s in left[r] ensures s in lists - {sender} {
      WithoutSenderCounts(possible[r], sender, s);
    }
    forall s, r | s in lists - {sender} && r in left ensures CountTo(lists[s], r) == CountOf(left[r], s) {
      WithoutSenderCounts(possible[r], sender, s);
    }
  }

  lemma TallyWithoutReceiver(lists: map<SignalBase, seq<Connection>>, possible: map<SlotBase, seq<SignalBase>>, receiver: SlotBase,
                             left: map<SignalBase, seq<Connection>>)
    requires Tally(lists, possible) && left.Keys == lists.Keys
    requires forall s :: s in left ==> left[s] == WithoutReceiver(lists[s], receiver)
    ensures Tally(left, possible - {receiver})
  {
    forall s, c | s in left && c in left[s] ensures c.receiver in possible - {receiver} {
      WithoutReceiverCounts(lists[s], receiver, receiver);
    }
    forall s, r | s in left && r in possible - {receiver} ensures CountTo(left[s], r) == CountOf(possible[r], s) {
      WithoutReceiverCounts(lists[s], receiver, r);
    }
  }

  /** ~SignalBase: afterwards no receiver names the sender, and what remains agrees. */
  method DestroySender(sender: SignalBase, ghost senders: set<SignalBase>, ghost receivers: set<SlotBase>)
    requires Agree(senders, receivers) && sender in senders
    modifies receivers
    ensures Agree(senders - {sender}, receivers)
    ensures forall r :: r in receivers ==> r.possibleSenders == WithoutSender(old(r.possibleSenders), sender)
  {
    ghost var lists, origin := Lists(senders), Possible(receivers);
    AgreeTally(senders, receivers);
    EraseFromReceivers(sender.connectList, sender, origin, receivers);
    forall r | r in receivers ensures r.possibleSenders == WithoutSender(origin[r], sender) {
      NotAmong(lists[sender], origin[r], r, sender);
    }
    TallyWithoutSender(lists, origin, sender, Possible(receivers));
    assert Lists(senders - {sender}) == lists - {sender};
    AgreeTally(senders - {sender}, receivers);
  }

  /** Where neither side names the other, there is nothing to erase. */
  lemma NotAmong(c: seq<Connection>, p: seq<SignalBase>, r: SlotBase, s: SignalBase)
    requires CountTo(c, r) == CountOf(p, s)
    ensures r in ReceiversOf(c, |c|) || WithoutSender(p, s) == p
    ensures s in p || WithoutReceiver(c, r) == c
  {
    CountToPositive(c, r);
    CountOfPositive(p, s);
    WithoutSenderCounts(p, s, s);
    WithoutReceiverCounts(c, r, r);
  }

  /** The receivers of the first n connections. */
  ghost function ReceiversOf(c: seq<Connection>, n: nat): set<SlotBase>
    requires n <= |c|
  {
    set k | 0 <= k < n :: c[k].receiver
  }

  lemma ReceiversStep(c: seq<Connection>, n: nat)
    requires n < |c|
    ensures ReceiversOf(c, n + 1) == ReceiversOf(c, n) + {c[n].receiver}
  {
  }

  /** The outer loop of ~SignalBase: it treats a receiver once for every connection. */
  method EraseFromReceivers(c: seq<Connection>, sender: SignalBase, ghost origin: map<SlotBase, seq<SignalBase>>, ghost receivers: set<SlotBase>)
    requires forall i :: 0 <= i < |c| ==> c[i].receiver in receivers
    requires forall r :: r in receivers ==> r in origin && r.possibleSenders == origin[r]
    modifies receivers
    ensures forall r :: r in receivers ==>
              r.possibleSenders == if r in ReceiversOf(c, |c|) then WithoutSender(origin[r], sender) else origin[r]
  {
    var i := 0;
    while i < |c|
      invariant 0 <= i <= |c|
      invariant forall r :: r in receivers ==>
                  r.possibleSenders == if r in ReceiversOf(c, i) then WithoutSender(origin[r], sender) else origin[r]
    {
      var r := c[i].receiver;
      WithoutSenderTwice(origin[r], sender);
      ReceiversStep(c, i);
      EraseSender(r, sender);
      i := i + 1;
    }
  }

  /** ~SlotBase: afterwards no sender names the receiver, and what remains agrees. */
  method DestroyReceiver(receiver: SlotBase, ghost senders: set<SignalBase>, ghost receivers: set<SlotBase>)
    requires Agree(senders, receivers) && receiver in receivers
    modifies senders
    ensures Agree(senders, receivers - {receiver})
    ensures forall s :: s in senders ==> s.connectList == WithoutReceiver(old(s.connectList), receiver)
  {
    ghost var origin, possible := Lists(senders), Possible(receivers);
    AgreeTally(senders, receivers);
    EraseFromSenders(receiver.possibleSenders, receiver, origin, senders);
    forall s | s in senders ensures s.connectList == WithoutReceiver(origin[s], receiver) {
      NotAmong(origin[s], possible[receiver], receiver, s);
    }
    TallyWithoutReceiver(origin, possible, receiver, Lists(senders));
    assert Possible(receivers - {receiver}) == possible - {receiver};
    AgreeTally(senders, receivers - {receiver});
  }

  /** The outer loop of ~SlotBase: it treats a sender once for every connection. */
  method EraseFromSenders(p: seq<SignalBase>, receiver: SlotBase, ghost origin: map<SignalBase, seq<Connection>>, ghost senders: set<SignalBase>)
    requires forall i :: 0 <= i < |p| ==> p[i] in senders
    requires forall s :: s in senders ==> s in origin && s.connectList == origin[s]
    modifies senders
    ensures forall s :: s in senders ==> s.connectList == if s in p then WithoutReceiver(origin[s], receiver) else origin[s]
  {
    var i := 0;
    while i < |p|
      invariant 0 <= i <= |p|
      invariant forall s :: s in senders ==>
                  s.connectList == if s in p[..i] then WithoutReceiver(origin[s], receiver) else origin[s]
    {
      var s := p[i];
      WithoutReceiverTwice(origin[s], receiver);
      EraseReceiver(s, receiver);
      assert p[..i + 1] == p[..i] + [s];
      i := i + 1;
    }
    assert p[..i] == p;
  }

  // -------------------------------------------------------------- queries

  /** internal_cntConnections: a null receiver counts all. */
  predicate Counted(item: Connection, receiver: SlotBase?, signal: Bento) {
    (receiver == null || item.receiver == receiver) && item.signal.Same(signal)
  }

  lemma CountedRule(item: Connection, receiver: SlotBase?, signal: Bento)
    ensures Counted(item, receiver, signal) <==>
              (receiver != null ==> item.receiver == receiver) && item.signal == signal && !signal.Lambda?
  {
  }

  /** The positions below n that count. */
  ghost function Positions(q: seq<Connection>, n: nat, receiver: SlotBase?, signal: Bento): set<int>
    requires n <= |q|
  {
    set j | 0 <= j < n && Counted(q[j], receiver, signal)
  }

  lemma PositionsStep(q: seq<Connection>, n: nat, receiver: SlotBase?, signal: Bento)
    requires n < |q|
    ensures |Positions(q, n + 1, receiver, signal)| == |Positions(q, n, receiver, signal)| + (if Counted(q[n], receiver, signal) then 1 else 0)
  {
    var before := Positions(q, n, receiver, signal);
    assert Positions(q, n + 1, receiver, signal) == if Counted(q[n], receiver, signal) then before + {n} else before;
  }

  method CountConnections(sender: SignalBase, receiver: SlotBase?, signal: Bento) returns (n: nat)
    ensures n == |Positions(sender.connectList, |sender.connectList|, receiver, signal)|
  {
    n := 0;
    var c, i := sender.connectList, 0;
    while i < |c|
      invariant 0 <= i <= |c| && n == |Positions(c, i, receiver, signal)|
    {
      PositionsStep(c, i, receiver, signal);
      if Counted(c[i], receiver, signal) { n := n + 1; }
      i := i + 1;
    }
  }

  /** internal_receiverList. */
  method ReceiverList(sender: SignalBase, signal: Bento) returns (found: set<SlotBase>)
    ensures forall r :: r in found <==>
              exists i :: 0 <= i < |sender.connectList| && sender.connectList[i].receiver == r && sender.connectList[i].signal.Same(signal)
  {
    found := {};
    var i := 0;
    while i < |sender.connectList|
      invariant 0 <= i <= |sender.connectList|
      invariant forall r :: r in found <==>
                  exists j :: 0 <= j < i && sender.connectList[j].receiver == r && sender.connectList[j].signal.Same(signal)
    {
      if sender.connectList[i].signal.Same(signal) { found := found + {sender.connectList[i].receiver}; }
      i := i + 1;
    }
  }

  /** internal_senderList: under agreement, exactly the senders that have some
      connection to the receiver. */
  method SenderList(receiver: SlotBase, ghost senders: set<SignalBase>, ghost receivers: set<SlotBase>)
    returns (found: set<SignalBase>)
    requires Agree(senders, receivers) && receiver in receivers
    ensures forall s :: s in found <==>
              s in senders && exists i :: 0 <= i < |s.connectList| && s.connectList[i].receiver == receiver
  {
    found := {};
    var i := 0;
    while i < |receiver.possibleSenders|
      invariant 0 <= i <= |receiver.possibleSenders|
      invariant forall s :: s in found <==> s in receiver.possibleSenders[..i]
    {
      found := found + {receiver.possibleSenders[i]};
      assert receiver.possibleSenders[..i + 1] == receiver.possibleSenders[..i] + [receiver.possibleSenders[i]];
      i := i + 1;
    }
    assert receiver.possibleSenders[..i] == receiver.possibleSenders;
    forall s ensures s in found <==>
        s in senders && exists i :: 0 <= i < |s.connectList| && s.connectList[i].receiver == receiver
    {
      CountOfPositive(receiver.possibleSenders, s);
      CountToPositive(s.connectList, receiver);
    }
  }
}
