/** The linked structure of rcu_list and the operations of the one writer that
    holds the mutex, with one step per atomic load or store.

    Data nodes live in a map from addresses: allocation returns any address that
    is not live, and touching a dead address is reported.  `status`, `rank`,
    `born`, `gone`, `list`, `now`, `bot` and `top` are history variables. */
module RcuLinks {
  import opened ZombieStack

  /** What has happened to a node so far: allocated by an inserter, reachable from
      the head, unlinked by an erase still running, or handed to a zombie entry
      (whose position in the log is `stamp`). */
  datatype Status = Private | Linked | Transit | Retired(stamp: int)
  {
    predicate Unlinked() { Transit? || Retired? }
  }

  /** node.  `rank` is its place in the order of everything ever inserted;
      `born` and `gone` date its linking and its unlinking. */
  datatype Node = Node(next: Ptr, back: Ptr, deleted: bool,
                       status: Status, rank: int, born: nat, gone: nat)

  /** The linked structure.  `list` is the abstract sequence, `now` counts the
      changes made to it, ranks in use lie in [bot, top). */
  datatype Links = Links(nodes: map<Ptr, Node>, head: Ptr, tail: Ptr,
                         list: seq<Ptr>, now: nat, bot: int, top: int)

  /** Where the holder of the write mutex stands inside push_back, push_front or erase. */
  datatype Op =
    | Idle
    | PbLoad(n: Ptr)
    | PbBack(n: Ptr, t: Ptr)
    | PbNext(n: Ptr, t: Ptr)
    | PbTail(n: Ptr, t: Ptr)
    | PfLoad(n: Ptr)
    | PfNext(n: Ptr, h: Ptr)
    | PfBack(n: Ptr, h: Ptr)
    | PfHead(n: Ptr, h: Ptr)
    | EmptyHead(n: Ptr)
    | EmptyTail(n: Ptr)
    | ErMark(c: Ptr, x: Ptr)
    | ErBack(c: Ptr, x: Ptr)
    | ErUnlink(c: Ptr, x: Ptr, p: Ptr)
    | ErRelink(c: Ptr, x: Ptr, p: Ptr)
    | ErAlloc(c: Ptr)
    | ErPush(c: Ptr)
  {
    /** The node being inserted, as long as no reader can see it. */
    function New(): Ptr {
      if PbLoad? || PbBack? || PbNext? || PfLoad? || PfNext? || PfBack? || PfHead? || EmptyHead? then n else 0
    }

    /** The node unlinked by this erase and not yet on the zombie stack. */
    function Victim(): Ptr {
      if ErRelink? || ErAlloc? || ErPush? then c else 0
    }

    /** The node marked deleted that is still linked. */
    function Marked(): Ptr {
      if ErBack? || ErUnlink? then c else 0
    }
  }

  // ---------------------------------------------------------------- steps

  /** The abstract erase. */
  function Without(q: seq<Ptr>, c: Ptr): seq<Ptr> {
    if q == [] then [] else if q[0] == c then q[1..] else [q[0]] + Without(q[1..], c)
  }

  function Link(l: Links, n: Ptr, rank: int): map<Ptr, Node> {
    if n in l.nodes then l.nodes[n := l.nodes[n].(status := Linked, rank := rank, born := l.now)] else l.nodes
  }

  function Unlink(l: Links, c: Ptr): map<Ptr, Node> {
    if c in l.nodes then l.nodes[c := l.nodes[c].(status := Transit, gone := l.now)] else l.nodes
  }

  /** The next step of the writer inside a list operation: the new structure,
      where the writer stands then, and whether it touched a dead node. */
  function Write(l: Links, op: Op): (Links, Op, bool) {
    var nodes := l.nodes;
    match op
    case PbLoad(n) => (l, if l.tail == 0 then EmptyHead(n) else PbBack(n, l.tail), false)
    case PfLoad(n) => (l, if l.head == 0 then EmptyHead(n) else PfNext(n, l.head), false)
    case EmptyHead(n) =>
      (l.(head := n, nodes := Link(l, n, l.top), list := [n], now := l.now + 1, top := l.top + 1), EmptyTail(n), false)
    case EmptyTail(n) => (l.(tail := n), Idle, false)
    case PbBack(n, t) =>
      if n !in nodes then (l, op, true) else (l.(nodes := nodes[n := nodes[n].(back := t)]), PbNext(n, t), false)
    case PbNext(n, t) =>
      if t !in nodes then (l, op, true) else
        var linked := l.(nodes := Link(l, n, l.top), list := l.list + [n], now := l.now + 1, top := l.top + 1);
        (linked.(nodes := linked.nodes[t := linked.nodes[t].(next := n)]), PbTail(n, t), false)
    case PbTail(n, _) => (l.(tail := n), Idle, false)
    case PfNext(n, h) =>
      if n !in nodes then (l, op, true) else (l.(nodes := nodes[n := nodes[n].(next := h)]), PfBack(n, h), false)
    case PfBack(n, h) =>
      if h !in nodes then (l, op, true) else (l.(nodes := nodes[h := nodes[h].(back := n)]), PfHead(n, h), false)
    case PfHead(n, _) =>
      (l.(head := n, nodes := Link(l, n, l.bot - 1), list := [n] + l.list, now := l.now + 1, bot := l.bot - 1), Idle, false)
    case ErMark(c, x) =>
      if c !in nodes then (l, op, true)
      else if nodes[c].deleted then (l, Idle, false)
      else (l.(nodes := nodes[c := nodes[c].(deleted := true)]), ErBack(c, x), false)
    case ErBack(c, x) =>
      if c !in nodes then (l, op, true) else (l, ErUnlink(c, x, nodes[c].back), false)
    case ErUnlink(c, x, p) =>
      var cut := l.(nodes := Unlink(l, c), list := Without(l.list, c), now := l.now + 1);
      if p == 0 then (cut.(head := x), ErRelink(c, x, p), false)
      else if p !in nodes then (l, op, true)
      else (cut.(nodes := cut.nodes[p := cut.nodes[p].(next := x)]), ErRelink(c, x, p), false)
    case ErRelink(c, x, p) =>
      if x == 0 then (l.(tail := p), ErAlloc(c), false)
      else if x !in nodes then (l, op, true)
      else (l.(nodes := nodes[x := nodes[x].(back := p)]), ErAlloc(c), false)
    case _ => (l, op, false)
  }

  // ------------------------------------------------- invariant of the structure

  function At(q: seq<Ptr>, i: int): Ptr {
    if 0 <= i < |q| then q[i] else 0
  }

  ghost predicate IsLinked(l: Links, d: Ptr) {
    d in l.nodes && l.nodes[d].status == Linked
  }

  ghost predicate ForwardAt(l: Links, i: int)
    requires 0 <= i < |l.list| && l.list[i] in l.nodes
  {
    l.nodes[l.list[i]].next == At(l.list, i + 1)
  }

  ghost predicate AllLinked(l: Links) {
    forall i {:trigger l.list[i]} :: 0 <= i < |l.list| ==> IsLinked(l, l.list[i])
  }

  ghost predicate Sorted(l: Links)
    requires AllLinked(l)
  {
    forall i, j {:trigger l.list[i], l.list[j]} :: 0 <= i < j < |l.list| ==>
      l.nodes[l.list[i]].rank < l.nodes[l.list[j]].rank
  }

  ghost predicate Forward(l: Links)
    requires AllLinked(l)
  {
    l.head == At(l.list, 0) && forall i {:trigger ForwardAt(l, i)} :: 0 <= i < |l.list| ==> ForwardAt(l, i)
  }

  /** The chain of next fields from the head is the abstract list. */
  ghost predicate ListOk(l: Links) {
    && 0 !in l.nodes
    && AllLinked(l) && Forward(l) && Sorted(l)
    && (forall d :: IsLinked(l, d) ==> d in l.list)
  }

  ghost predicate DatesOk(l: Links, d: Ptr)
    requires d in l.nodes
  {
    var n := l.nodes[d];
    && (!n.status.Private? ==> l.bot <= n.rank < l.top && n.born < l.now)
    && (n.status.Unlinked() ==> n.gone < l.now)
  }

  ghost predicate RanksOk(l: Links) {
    && l.bot <= l.top
    && (forall d :: d in l.nodes ==> DatesOk(l, d))
    && (forall d, e {:trigger l.nodes[d].rank, l.nodes[e].rank} ::
          d in l.nodes && e in l.nodes && d != e && !l.nodes[d].status.Private? && !l.nodes[e].status.Private? ==>
            l.nodes[d].rank != l.nodes[e].rank)
  }

  /** No linked node has a rank strictly between a and b. */
  ghost predicate NoneBetween(l: Links, a: int, b: int) {
    forall x {:trigger IsLinked(l, x)} :: IsLinked(l, x) ==> !(a < l.nodes[x].rank < b)
  }

  /** Where the frozen next of the unlinked node d leads: to a node unlinked later
      or still linked, with nothing linked in between; or to the end, and then
      whatever is linked behind d was inserted after d was unlinked. */
  ghost predicate FrozenOk(l: Links, d: Ptr)
    requires d in l.nodes
  {
    var n := l.nodes[d];
    if n.next == 0 then
      forall x {:trigger IsLinked(l, x)} :: IsLinked(l, x) && l.nodes[x].rank > n.rank ==> l.nodes[x].born > n.gone
    else
      && n.next in l.nodes
      && var e := l.nodes[n.next];
         && !e.status.Private? && e.rank > n.rank
         && (e.status.Unlinked() ==> e.gone > n.gone)
         && (n.status.Transit? ==> e.status.Linked?)
         && (n.status.Retired? && e.status.Retired? ==> e.status.stamp > n.status.stamp)
         && NoneBetween(l, n.rank, e.rank)
  }

  /** d is unlinked, and its zombie entry, if pushed, is still on the stack. */
  predicate Frozen(n: Node, floor: int) {
    n.status.Transit? || (n.status.Retired? && n.status.stamp >= floor)
  }

  ghost predicate FrozensOk(l: Links, floor: int) {
    forall d :: d in l.nodes && Frozen(l.nodes[d], floor) ==> FrozenOk(l, d)
  }

  // --------------------------------------------- how list operations change nodes

  /** What one step may do to a node: link it, unlink it with its next frozen, or
      hand it to the zombie entry at position m.  An unlinked node is never
      written again. */
  ghost predicate NodeEvolves(a: Node, b: Node, now: nat, m: int) {
    match a.status
    case Private => b.status == Private || (b.status == Linked && b.born == now)
    case Linked => b.rank == a.rank && b.born == a.born
                   && (b.status == Linked || (b.status == Transit && b.gone == now && b.next == a.next))
    case Transit => b == a || b == a.(status := Retired(m))
    case Retired(_) => b == a
  }

  ghost predicate Evolves(l: Links, t: Links, m: int) {
    && l.now <= t.now
    && (forall d {:trigger d in l.nodes} {:trigger t.nodes[d]} :: d in l.nodes ==>
          d in t.nodes && NodeEvolves(l.nodes[d], t.nodes[d], l.now, m))
    && (forall x {:trigger IsLinked(t, x)} :: IsLinked(t, x) ==>
          IsLinked(l, x) || (t.nodes[x].born == l.now && !(l.bot <= t.nodes[x].rank < l.top)))
    && (forall d :: d in t.nodes && d !in l.nodes ==> t.nodes[d].status == Private)
    && (forall d :: d in l.nodes && l.nodes[d].status == Transit ==>
          !IsLinked(l, l.nodes[d].next) || IsLinked(t, l.nodes[d].next))
  }

  ghost predicate RetiredBelow(l: Links, m: int) {
    forall x :: x in l.nodes && l.nodes[x].status.Retired? ==> l.nodes[x].status.stamp < m
  }

  lemma EvolvesFrozen(l: Links, t: Links, m: int, floor: int, d: Ptr)
    requires Evolves(l, t, m) && RanksOk(l) && d in l.nodes && Frozen(l.nodes[d], floor) && FrozenOk(l, d)
    requires RetiredBelow(l, m)
    ensures FrozenOk(t, d)
  {
    assert DatesOk(l, d);
    var n := l.nodes[d];
    if n.next == 0 {
      forall x {:trigger IsLinked(t, x)} | IsLinked(t, x) && t.nodes[x].rank > n.rank ensures t.nodes[x].born > n.gone {
      }
    } else {
      forall x {:trigger IsLinked(t, x)} | IsLinked(t, x) ensures !(n.rank < t.nodes[x].rank < t.nodes[n.next].rank) {
        assert DatesOk(l, n.next);
      }
    }
  }

  // ------------------------------------------------------- the writer's progress

  /** The one back field, if any, that lags behind the list. */
  function ExpectedBack(l: Links, op: Op, i: int): Ptr
    requires 0 <= i < |l.list|
  {
    if op.PfHead? && i == 0 then op.n
    else if op.ErRelink? && l.list[i] == op.x then op.c
    else At(l.list, i - 1)
  }

  function ExpectedTail(l: Links, op: Op): Ptr {
    if op.EmptyTail? then 0
    else if op.PbTail? then op.t
    else if op.ErRelink? && op.x == 0 then op.c
    else At(l.list, |l.list| - 1)
  }

  ghost predicate BackAt(l: Links, op: Op, i: int)
    requires 0 <= i < |l.list| && l.list[i] in l.nodes
  {
    l.nodes[l.list[i]].back == ExpectedBack(l, op, i)
  }

  ghost predicate BacksOk(l: Links, op: Op)
    requires ListOk(l)
  {
    && l.tail == ExpectedTail(l, op)
    && (forall i {:trigger BackAt(l, op, i)} :: 0 <= i < |l.list| ==> BackAt(l, op, i))
  }

  ghost predicate NodeOk(n: Node, d: Ptr, op: Op) {
    && (n.status.Private? ==> d == op.New())
    && (n.status.Transit? ==> d == op.Victim())
    && (n.deleted <==> n.status.Unlinked() || d == op.Marked())
  }

  ghost predicate NodesOk(l: Links, op: Op) {
    forall d :: d in l.nodes ==> NodeOk(l.nodes[d], d, op)
  }

  ghost predicate IsNew(l: Links, n: Ptr, next: Ptr, back: Ptr) {
    n in l.nodes && l.nodes[n].status == Private && l.nodes[n].next == next && l.nodes[n].back == back
  }

  ghost predicate OpOk(l: Links, op: Op) {
    var q := l.list;
    match op
    case PbLoad(n) => IsNew(l, n, 0, 0)
    case PbBack(n, t) => IsNew(l, n, 0, 0) && q != [] && t == q[|q| - 1]
    case PbNext(n, t) => IsNew(l, n, 0, t) && q != [] && t == q[|q| - 1]
    case PbTail(n, t) => |q| >= 2 && n == q[|q| - 1] && t == q[|q| - 2]
    case PfLoad(n) => IsNew(l, n, 0, 0)
    case PfNext(n, h) => IsNew(l, n, 0, 0) && q != [] && h == q[0]
    case PfBack(n, h) => IsNew(l, n, h, 0) && q != [] && h == q[0]
    case PfHead(n, h) => IsNew(l, n, h, 0) && q != [] && h == q[0]
    case EmptyHead(n) => IsNew(l, n, 0, 0) && q == []
    case EmptyTail(n) => q == [n]
    case ErMark(c, x) => c in l.nodes && !l.nodes[c].status.Private? && (IsLinked(l, c) ==> l.nodes[c].next == x)
    case ErBack(c, x) => IsLinked(l, c) && l.nodes[c].next == x
    case ErUnlink(c, x, p) => IsLinked(l, c) && l.nodes[c].next == x && l.nodes[c].back == p
    case ErRelink(c, x, p) =>
      && c in l.nodes && l.nodes[c].status == Transit
      && (if x == 0 then p == At(q, |q| - 1) else exists i {:trigger q[i]} :: 0 <= i < |q| && q[i] == x && p == At(q, i - 1))
    case ErAlloc(c) => c in l.nodes && l.nodes[c].status == Transit
    case ErPush(c) => c in l.nodes && l.nodes[c].status == Transit
    case Idle => true
  }

  ghost predicate LinksInv(l: Links, op: Op, floor: int) {
    && ListOk(l) && RanksOk(l) && FrozensOk(l, floor)
    && NodesOk(l, op)
    && OpOk(l, op) && BacksOk(l, op)
  }

  predicate Mutating(op: Op) {
    !op.Idle? && !op.ErAlloc? && !op.ErPush?
  }

  /** Retired nodes are exactly those that were retired before. */
  ghost predicate SameRetired(l: Links, t: Links) {
    forall d :: (d in l.nodes && l.nodes[d].status.Retired?) || (d in t.nodes && t.nodes[d].status.Retired?) ==>
      d in l.nodes && d in t.nodes && l.nodes[d] == t.nodes[d]
  }

  /** A step that leaves the list, the dates and the frozen nodes alone. */
  ghost predicate Steady(l: Links, t: Links) {
    && t.list == l.list && t.head == l.head && t.now == l.now && t.bot == l.bot && t.top == l.top
    && t.nodes.Keys == l.nodes.Keys
    && (forall d {:trigger l.nodes[d]} {:trigger t.nodes[d]} :: d in l.nodes ==>
          && t.nodes[d].status == l.nodes[d].status && t.nodes[d].rank == l.nodes[d].rank
          && t.nodes[d].born == l.nodes[d].born && t.nodes[d].gone == l.nodes[d].gone
          && (!l.nodes[d].status.Private? ==> t.nodes[d].next == l.nodes[d].next)
          && (l.nodes[d].status.Unlinked() ==> t.nodes[d] == l.nodes[d]))
  }

  lemma SteadyList(l: Links, t: Links)
    requires ListOk(l) && Steady(l, t)
    ensures ListOk(t) && forall x :: IsLinked(t, x) <==> IsLinked(l, x)
  {
    forall i {:trigger ForwardAt(t, i)} | 0 <= i < |t.list| ensures ForwardAt(t, i) {
      assert IsLinked(l, l.list[i]) && ForwardAt(l, i);
    }
  }

  lemma SteadyOk(l: Links, t: Links, floor: int, m: int)
    requires ListOk(l) && RanksOk(l) && FrozensOk(l, floor) && Steady(l, t)
    ensures ListOk(t) && RanksOk(t) && FrozensOk(t, floor) && Evolves(l, t, m) && SameRetired(l, t)
  {
    SteadyList(l, t);
    SteadyRanks(l, t);
    SteadyFrozens(l, t, floor);
    SteadyEvolves(l, t, m);
  }

  lemma SteadyRanks(l: Links, t: Links)
    requires Steady(l, t) && RanksOk(l)
    ensures RanksOk(t)
  {
    forall d | d in t.nodes ensures DatesOk(t, d) { assert DatesOk(l, d); }
  }

  lemma SteadyFrozens(l: Links, t: Links, floor: int)
    requires Steady(l, t) && FrozensOk(l, floor) && forall x :: IsLinked(t, x) <==> IsLinked(l, x)
    ensures FrozensOk(t, floor)
  {
    forall d | d in t.nodes && Frozen(t.nodes[d], floor) ensures FrozenOk(t, d) { assert FrozenOk(l, d); }
  }

  lemma SteadyEvolves(l: Links, t: Links, m: int)
    requires Steady(l, t)
    ensures Evolves(l, t, m) && SameRetired(l, t)
  {
  }

  /** What each step of a list operation owes. */
  ghost predicate WriteOk(l: Links, op: Op, floor: int, m: int) {
    var (t, next, dead) := Write(l, op);
    !dead && LinksInv(t, next, floor) && Evolves(l, t, m) && SameRetired(l, t)
  }

  /** The steps that do not change the list. */
  predicate Local(op: Op) {
    Mutating(op) && !op.EmptyHead? && !op.PbNext? && !op.PfHead? && !op.ErUnlink?
  }

  lemma TouchSteady(l: Links, d: Ptr, n: Node, tail: Ptr)
    requires d in l.nodes && !l.nodes[d].status.Unlinked()
    requires n.status == l.nodes[d].status && n.rank == l.nodes[d].rank
    requires n.born == l.nodes[d].born && n.gone == l.nodes[d].gone
    requires l.nodes[d].status.Private? || n.next == l.nodes[d].next
    ensures Steady(l, l.(nodes := l.nodes[d := n], tail := tail))
  {
  }

  lemma LocalSteady(l: Links, op: Op)
    requires ListOk(l) && NodesOk(l, op) && OpOk(l, op) && Local(op)
    ensures var (t, next, dead) := Write(l, op); !dead && Steady(l, t)
  {
    match op
    case PbBack(n, t) => TouchSteady(l, n, l.nodes[n].(back := t), l.tail);
    case PfNext(n, h) => TouchSteady(l, n, l.nodes[n].(next := h), l.tail);
    case PfBack(n, h) => assert IsLinked(l, l.list[0]); TouchSteady(l, h, l.nodes[h].(back := n), l.tail);
    case ErMark(c, x) =>
      assert NodeOk(l.nodes[c], c, op);
      if !l.nodes[c].deleted { TouchSteady(l, c, l.nodes[c].(deleted := true), l.tail); }
    case ErRelink(c, x, p) =>
      if x != 0 {
        var j :| 0 <= j < |l.list| && l.list[j] == x && p == At(l.list, j - 1);
        assert IsLinked(l, l.list[j]);
        TouchSteady(l, x, l.nodes[x].(back := p), l.tail);
      }
    case _ =>
  }

  lemma LocalNode(l: Links, op: Op, d: Ptr)
    requires 0 !in l.nodes && OpOk(l, op) && Local(op) && d in l.nodes && NodeOk(l.nodes[d], d, op)
    requires op.ErMark? ==> NodeOk(l.nodes[op.c], op.c, op)
    ensures var (t, next, dead) := Write(l, op); d in t.nodes && NodeOk(t.nodes[d], d, next)
  {
  }

  lemma LocalNodes(l: Links, op: Op)
    requires 0 !in l.nodes && NodesOk(l, op) && OpOk(l, op) && Local(op)
    requires var (t, next, dead) := Write(l, op); t.nodes.Keys == l.nodes.Keys
    ensures var (t, next, dead) := Write(l, op); NodesOk(t, next)
  {
    var (t, next, dead) := Write(l, op);
    forall d | d in t.nodes ensures NodeOk(t.nodes[d], d, next) { LocalNode(l, op, d); }
  }

  lemma LocalOp(l: Links, op: Op)
    requires ListOk(l) && NodesOk(l, op) && OpOk(l, op) && Local(op) && l.tail == ExpectedTail(l, op)
    ensures var (t, next, dead) := Write(l, op); OpOk(t, next) && t.tail == ExpectedTail(t, next)
  {
    if l.list != [] { assert IsLinked(l, l.list[0]) && IsLinked(l, l.list[|l.list| - 1]); }
    if op.ErMark? || op.ErBack? || op.ErRelink? { LocalErase(l, op); } else { LocalPush(l, op); }
  }

  lemma LocalErase(l: Links, op: Op)
    requires ListOk(l) && NodesOk(l, op) && OpOk(l, op) && (op.ErMark? || op.ErBack? || op.ErRelink?)
    requires l.tail == ExpectedTail(l, op)
    ensures var (t, next, dead) := Write(l, op); OpOk(t, next) && t.tail == ExpectedTail(t, next)
  {
    if op.ErMark? { assert NodeOk(l.nodes[op.c], op.c, op); }
  }

  lemma LocalPush(l: Links, op: Op)
    requires 0 !in l.nodes && OpOk(l, op) && Local(op) && !op.ErMark? && !op.ErBack? && !op.ErRelink?
    requires l.tail == ExpectedTail(l, op) && l.head == At(l.list, 0)
    requires l.list != [] ==> IsLinked(l, l.list[0]) && IsLinked(l, l.list[|l.list| - 1])
    ensures var (t, next, dead) := Write(l, op); OpOk(t, next) && t.tail == ExpectedTail(t, next)
  {
  }

  lemma LocalBack(l: Links, op: Op, i: int)
    requires ListOk(l) && NodesOk(l, op) && OpOk(l, op) && Local(op) && 0 <= i < |l.list| && BackAt(l, op, i)
    ensures var (t, next, dead) := Write(l, op);
            t.list == l.list && t.list[i] in t.nodes && BackAt(t, next, i)
  {
    assert IsLinked(l, l.list[i]);
    if op.ErRelink? { RelinkBack(l, op, i); } else { OtherBack(l, op, i); }
  }

  lemma RelinkBack(l: Links, op: Op, i: int)
    requires 0 !in l.nodes && AllLinked(l) && Sorted(l) && OpOk(l, op) && op.ErRelink?
    requires 0 <= i < |l.list| && IsLinked(l, l.list[i]) && BackAt(l, op, i)
    ensures var (t, next, dead) := Write(l, op);
            t.list == l.list && t.list[i] in t.nodes && BackAt(t, next, i)
  {
    if op.x != 0 {
      var j :| 0 <= j < |l.list| && l.list[j] == op.x && op.p == At(l.list, j - 1);
      assert IsLinked(l, l.list[j]);
      assert i < j ==> l.nodes[l.list[i]].rank < l.nodes[l.list[j]].rank;
      assert j < i ==> l.nodes[l.list[j]].rank < l.nodes[l.list[i]].rank;
    }
  }

  lemma OtherBack(l: Links, op: Op, i: int)
    requires ListOk(l) && NodesOk(l, op) && OpOk(l, op) && Local(op) && !op.ErRelink?
    requires 0 <= i < |l.list| && IsLinked(l, l.list[i]) && BackAt(l, op, i)
    ensures var (t, next, dead) := Write(l, op);
            t.list == l.list && t.list[i] in t.nodes && BackAt(t, next, i)
  {
  }

  lemma LocalOk(l: Links, op: Op, floor: int, m: int)
    requires LinksInv(l, op, floor) && Local(op)
    ensures WriteOk(l, op, floor, m)
  {
    var (t, next, dead) := Write(l, op);
    LocalSteady(l, op);
    SteadyOk(l, t, floor, m);
    LocalNodes(l, op);
    LocalOp(l, op);
    assert BacksOk(t, next) by {
      forall i {:trigger BackAt(t, next, i)} | 0 <= i < |t.list| ensures BackAt(t, next, i) { LocalBack(l, op, i); }
    }
  }

  /** From l to t the private node n is linked, with a rank outside those in use. */
  ghost predicate Inserts(l: Links, t: Links, n: Ptr) {
    && t.nodes.Keys == l.nodes.Keys && n in l.nodes && l.nodes[n].status == Private
    && t.now == l.now + 1 && t.bot <= l.bot && l.top <= t.top
    && t.nodes[n].status == Linked && t.nodes[n].born == l.now
    && t.bot <= t.nodes[n].rank < t.top && !(l.bot <= t.nodes[n].rank < l.top)
    && (forall d {:trigger l.nodes[d]} {:trigger t.nodes[d]} :: d in l.nodes && d != n ==>
          && t.nodes[d].status == l.nodes[d].status && t.nodes[d].rank == l.nodes[d].rank
          && t.nodes[d].born == l.nodes[d].born && t.nodes[d].gone == l.nodes[d].gone
          && (l.nodes[d].status.Unlinked() ==> t.nodes[d] == l.nodes[d]))
  }

  lemma InsertsOk(l: Links, t: Links, n: Ptr, floor: int, m: int)
    requires Inserts(l, t, n) && RanksOk(l) && FrozensOk(l, floor) && RetiredBelow(l, m)
    ensures RanksOk(t) && FrozensOk(t, floor) && Evolves(l, t, m) && SameRetired(l, t)
  {
    InsertsEvolve(l, t, n, m);
    InsertsRanks(l, t, n);
    forall d | d in t.nodes && Frozen(t.nodes[d], floor) ensures FrozenOk(t, d) {
      EvolvesFrozen(l, t, m, floor, d);
    }
  }

  lemma InsertsEvolve(l: Links, t: Links, n: Ptr, m: int)
    requires Inserts(l, t, n)
    ensures Evolves(l, t, m) && SameRetired(l, t)
  {
  }

  lemma InsertsRanks(l: Links, t: Links, n: Ptr)
    requires Inserts(l, t, n) && RanksOk(l)
    ensures RanksOk(t)
  {
    forall d | d in t.nodes ensures DatesOk(t, d) { assert DatesOk(l, d); }
  }

  lemma InsertNodes(l: Links, op: Op)
    requires ListOk(l) && NodesOk(l, op) && OpOk(l, op) && (op.EmptyHead? || op.PbNext? || op.PfHead?)
    ensures var (t, next, dead) := Write(l, op); !dead && NodesOk(t, next)
  {
    var (t, next, dead) := Write(l, op);
    if op.PbNext? { assert IsLinked(l, l.list[|l.list| - 1]); }
    forall d | d in t.nodes ensures NodeOk(t.nodes[d], d, next) { assert NodeOk(l.nodes[d], d, op); }
  }

  lemma LinkFirstList(l: Links, op: Op)
    requires ListOk(l) && RanksOk(l) && op.EmptyHead? && OpOk(l, op)
    ensures var (t, next, dead) := Write(l, op); !dead && Inserts(l, t, op.n) && ListOk(t)
  {
    var (t, next, dead) := Write(l, op);
    assert ForwardAt(t, 0);
  }

  lemma LinkFirstBacks(l: Links, op: Op)
    requires op.EmptyHead? && OpOk(l, op) && l.tail == ExpectedTail(l, op)
    requires var (t, next, dead) := Write(l, op); ListOk(t)
    ensures var (t, next, dead) := Write(l, op); OpOk(t, next) && BacksOk(t, next)
  {
    var (t, next, dead) := Write(l, op);
    assert BackAt(t, next, 0);
  }

  lemma LinkFirst(l: Links, op: Op, floor: int, m: int)
    requires LinksInv(l, op, floor) && op.EmptyHead? && RetiredBelow(l, m)
    ensures WriteOk(l, op, floor, m)
  {
    var (t, next, dead) := Write(l, op);
    LinkFirstList(l, op);
    InsertsOk(l, t, op.n, floor, m);
    InsertNodes(l, op);
    LinkFirstBacks(l, op);
  }

  lemma LinkLastNodes(l: Links, op: Op)
    requires ListOk(l) && RanksOk(l) && op.PbNext? && OpOk(l, op)
    ensures var (t, next, dead) := Write(l, op); !dead && Inserts(l, t, op.n) && t.list == l.list + [op.n] && IsLinked(t, op.n)
  {
    assert IsLinked(l, l.list[|l.list| - 1]);
  }

  /** A list with one more node at its end. */
  lemma LongerList(l: Links, t: Links, n: Ptr)
    requires AllLinked(l) && Sorted(l) && (forall d :: IsLinked(l, d) ==> DatesOk(l, d))
    requires Inserts(l, t, n) && t.list == l.list + [n] && t.nodes[n].rank >= l.top
    ensures AllLinked(t) && Sorted(t)
  {
    var q := l.list;
    assert AllLinked(t) by {
      forall i {:trigger t.list[i]} | 0 <= i < |t.list| ensures IsLinked(t, t.list[i]) {
        if i < |q| { assert IsLinked(l, q[i]); }
      }
    }
    forall i, j {:trigger t.list[i], t.list[j]} | 0 <= i < j < |t.list|
      ensures t.nodes[t.list[i]].rank < t.nodes[t.list[j]].rank
    {
      assert IsLinked(l, q[i]) && DatesOk(l, q[i]);
      if j < |q| { assert IsLinked(l, q[j]) && l.nodes[q[i]].rank < l.nodes[q[j]].rank; }
    }
  }

  lemma LinkLastList(l: Links, op: Op)
    requires ListOk(l) && RanksOk(l) && op.PbNext? && OpOk(l, op)
    ensures var (t, next, dead) := Write(l, op); !dead && Inserts(l, t, op.n) && AllLinked(t) && Sorted(t)
  {
    var (t, next, dead) := Write(l, op);
    LinkLastNodes(l, op);
    LongerList(l, t, op.n);
  }

  lemma LinkLastForward(l: Links, op: Op)
    requires ListOk(l) && RanksOk(l) && op.PbNext? && OpOk(l, op)
    ensures var (t, next, dead) := Write(l, op); ListOk(t)
  {
    var (t, next, dead) := Write(l, op);
    LinkLastList(l, op);
    LinkLastNodes(l, op);
    LastForward(l, t, op.n);
  }

  /** A node at the end, to which the old tail leads. */
  lemma LastForward(l: Links, t: Links, n: Ptr)
    requires ListOk(l) && l.list != [] && AllLinked(t) && Sorted(t) && 0 !in t.nodes
    requires t.list == l.list + [n] && t.head == l.head && n in t.nodes && t.nodes[n].next == 0 && !IsLinked(l, n)
    requires var tail := l.list[|l.list| - 1];
             && tail in t.nodes && t.nodes[tail].next == n
             && forall d {:trigger t.nodes[d]} :: d in t.nodes && d != n ==>
                  && d in l.nodes && t.nodes[d].status == l.nodes[d].status
                  && (d != tail ==> t.nodes[d].next == l.nodes[d].next)
    ensures ListOk(t)
  {
    var q := l.list;
    forall i {:trigger ForwardAt(t, i)} | 0 <= i < |t.list| ensures ForwardAt(t, i) {
      if i < |q| - 1 { LastForwardAt(l, i); }
    }
    forall d | IsLinked(t, d) ensures d in t.list {
      if d != n { assert IsLinked(l, d) && d in l.list; }
    }
  }

  /** A node before the last one is another node, and leads on in the list. */
  lemma LastForwardAt(l: Links, i: nat)
    requires AllLinked(l) && Forward(l) && Sorted(l) && i < |l.list| - 1
    ensures l.list[i] in l.nodes && l.nodes[l.list[i]].next == l.list[i + 1] && l.list[i] != l.list[|l.list| - 1]
    ensures IsLinked(l, l.list[i])
  {
    assert IsLinked(l, l.list[i]) && ForwardAt(l, i);
    assert l.nodes[l.list[i]].rank < l.nodes[l.list[|l.list| - 1]].rank;
  }

  lemma LinkLastBacks(l: Links, op: Op)
    requires ListOk(l) && op.PbNext? && OpOk(l, op) && BacksOk(l, op)
    requires var (t, next, dead) := Write(l, op); ListOk(t)
    ensures var (t, next, dead) := Write(l, op); OpOk(t, next) && BacksOk(t, next)
  {
    var (t, next, dead) := Write(l, op);
    assert IsLinked(l, l.list[|l.list| - 1]);
    forall i {:trigger BackAt(t, next, i)} | 0 <= i < |t.list| ensures BackAt(t, next, i) {
      if i < |l.list| { assert IsLinked(l, l.list[i]) && BackAt(l, op, i); }
    }
  }

  lemma LinkLast(l: Links, op: Op, floor: int, m: int)
    requires LinksInv(l, op, floor) && op.PbNext? && RetiredBelow(l, m)
    ensures WriteOk(l, op, floor, m)
  {
    var (t, next, dead) := Write(l, op);
    LinkLastList(l, op);
    LinkLastForward(l, op);
    InsertsOk(l, t, op.n, floor, m);
    InsertNodes(l, op);
    LinkLastBacks(l, op);
  }

  lemma LinkFrontList(l: Links, op: Op)
    requires ListOk(l) && RanksOk(l) && op.PfHead? && OpOk(l, op)
    ensures var (t, next, dead) := Write(l, op); !dead && Inserts(l, t, op.n) && AllLinked(t) && Sorted(t)
  {
    var (t, next, dead) := Write(l, op);
    var q := l.list;
    assert AllLinked(t) by {
      forall i {:trigger t.list[i]} | 0 <= i < |t.list| ensures IsLinked(t, t.list[i]) {
        if i > 0 { assert t.list[i] == q[i - 1] && IsLinked(l, q[i - 1]); }
      }
    }
    forall i, j {:trigger t.list[i], t.list[j]} | 0 <= i < j < |t.list|
      ensures t.nodes[t.list[i]].rank < t.nodes[t.list[j]].rank
    {
      assert t.list[j] == q[j - 1] && IsLinked(l, q[j - 1]) && DatesOk(l, q[j - 1]);
      if i > 0 { assert t.list[i] == q[i - 1] && IsLinked(l, q[i - 1]); }
    }
  }

  lemma LinkFrontForward(l: Links, op: Op)
    requires ListOk(l) && RanksOk(l) && op.PfHead? && OpOk(l, op)
    ensures var (t, next, dead) := Write(l, op); ListOk(t)
  {
    var (t, next, dead) := Write(l, op);
    LinkFrontList(l, op);
    FrontForward(l, t, op.n);
  }

  /** A node in front that leads to the old head. */
  lemma FrontForward(l: Links, t: Links, n: Ptr)
    requires ListOk(l) && AllLinked(t) && Sorted(t) && 0 !in t.nodes && t.list == [n] + l.list && t.head == n
    requires n in t.nodes && t.nodes[n].next == At(l.list, 0)
    requires forall d {:trigger t.nodes[d]} :: d in t.nodes && d != n ==>
               d in l.nodes && t.nodes[d].next == l.nodes[d].next && t.nodes[d].status == l.nodes[d].status
    requires !IsLinked(l, n)
    ensures ListOk(t)
  {
    forall i {:trigger ForwardAt(t, i)} | 0 <= i < |t.list| ensures ForwardAt(t, i) {
      if i > 0 { assert t.list[i] == l.list[i - 1] && IsLinked(l, l.list[i - 1]) && ForwardAt(l, i - 1); }
    }
    forall d | IsLinked(t, d) ensures d in t.list {
      if d != n { assert IsLinked(l, d) && d in l.list; }
    }
  }

  lemma LinkFrontBacks(l: Links, op: Op)
    requires ListOk(l) && op.PfHead? && OpOk(l, op) && BacksOk(l, op)
    requires var (t, next, dead) := Write(l, op); ListOk(t)
    ensures var (t, next, dead) := Write(l, op); OpOk(t, next) && BacksOk(t, next)
  {
    var (t, next, dead) := Write(l, op);
    forall i {:trigger BackAt(t, next, i)} | 0 <= i < |t.list| ensures BackAt(t, next, i) {
      if i > 0 { assert t.list[i] == l.list[i - 1] && IsLinked(l, l.list[i - 1]) && BackAt(l, op, i - 1); }
    }
  }

  lemma LinkFront(l: Links, op: Op, floor: int, m: int)
    requires LinksInv(l, op, floor) && op.PfHead? && RetiredBelow(l, m)
    ensures WriteOk(l, op, floor, m)
  {
    var (t, next, dead) := Write(l, op);
    LinkFrontList(l, op);
    LinkFrontForward(l, op);
    InsertsOk(l, t, op.n, floor, m);
    InsertNodes(l, op);
    LinkFrontBacks(l, op);
  }

  lemma {:induction false} WithoutAt(q: seq<Ptr>, c: Ptr, i: nat)
    requires i < |q| && q[i] == c && forall j :: 0 <= j < i ==> q[j] != c
    ensures Without(q, c) == q[..i] + q[i + 1..]
  {
    if i > 0 {
      WithoutAt(q[1..], c, i - 1);
      assert q[..i] == [q[0]] + q[1..][..i - 1];
      assert q[1..][i..] == q[i + 1..];
    }
  }

  /** The position of the node being erased, and its neighbours. */
  lemma UnlinkAt(l: Links, op: Op) returns (i: nat)
    requires ListOk(l) && BacksOk(l, op) && op.ErUnlink? && OpOk(l, op)
    ensures i < |l.list| && l.list[i] == op.c
    ensures op.x == At(l.list, i + 1) && op.p == At(l.list, i - 1)
    ensures Without(l.list, op.c) == l.list[..i] + l.list[i + 1..]
    ensures (op.p != 0) == (i > 0) && (op.p != 0 ==> IsLinked(l, op.p) && op.p != op.c)
    ensures (op.x != 0) == (i + 1 < |l.list|) && (op.x != 0 ==> IsLinked(l, op.x) && op.x != op.c)
  {
    i := IndexOf(l, op.c);
    assert ForwardAt(l, i) && BackAt(l, op, i);
    if i > 0 { assert IsLinked(l, l.list[i - 1]); }
    if i + 1 < |l.list| { assert IsLinked(l, l.list[i + 1]); }
  }

  lemma IndexOf(l: Links, c: Ptr) returns (i: nat)
    requires AllLinked(l) && Sorted(l) && c in l.list
    ensures i < |l.list| && l.list[i] == c
    ensures forall j {:trigger l.list[j]} :: 0 <= j < |l.list| && j != i ==> l.list[j] != c
    ensures Without(l.list, c) == l.list[..i] + l.list[i + 1..]
  {
    i :| 0 <= i < |l.list| && l.list[i] == c;
    forall j {:trigger l.list[j]} | 0 <= j < |l.list| && j != i ensures l.list[j] != c {
      assert j < i ==> l.nodes[l.list[j]].rank < l.nodes[l.list[i]].rank;
      assert i < j ==> l.nodes[l.list[i]].rank < l.nodes[l.list[j]].rank;
    }
    WithoutAt(l.list, c, i);
  }

  /** What the unlinking store does to the nodes. */
  lemma UnlinkNodes(l: Links, op: Op)
    requires 0 !in l.nodes && op.ErUnlink? && IsLinked(l, op.c) && (op.p != 0 ==> IsLinked(l, op.p) && op.p != op.c)
    ensures var (t, next, dead) := Write(l, op);
            && !dead && t.nodes.Keys == l.nodes.Keys && t.list == Without(l.list, op.c)
            && (forall d {:trigger IsLinked(t, d)} :: IsLinked(t, d) <==> IsLinked(l, d) && d != op.c)
            && (forall d {:trigger t.nodes[d]} :: d in l.nodes ==>
                  && t.nodes[d].rank == l.nodes[d].rank && t.nodes[d].born == l.nodes[d].born
                  && t.nodes[d].back == l.nodes[d].back && t.nodes[d].deleted == l.nodes[d].deleted
                  && t.nodes[d].next == if d == op.p then op.x else l.nodes[d].next)
            && (forall d {:trigger t.nodes[d]} :: d in l.nodes ==>
                  if d == op.c then t.nodes[d].status == Transit && t.nodes[d].gone == l.now
                  else t.nodes[d].status == l.nodes[d].status && t.nodes[d].gone == l.nodes[d].gone)
  {
  }

  /** Where the elements of the shorter list come from. */
  function Old(i: nat, j: int): int {
    if j < i then j else j + 1
  }

  ghost predicate Shrinks(l: Links, t: Links, i: nat) {
    && i < |l.list| && |t.list| == |l.list| - 1
    && (forall j {:trigger t.list[j]} :: 0 <= j < |t.list| ==> t.list[j] == l.list[Old(i, j)])
    && (forall d {:trigger IsLinked(t, d)} :: IsLinked(t, d) <==> IsLinked(l, d) && d != l.list[i])
    && t.nodes.Keys == l.nodes.Keys
    && (forall d {:trigger t.nodes[d]} :: d in l.nodes ==> t.nodes[d].rank == l.nodes[d].rank)
  }

  lemma ShrinksLinked(l: Links, t: Links, i: nat)
    requires AllLinked(l) && Sorted(l) && Shrinks(l, t, i)
    ensures AllLinked(t)
  {
    forall j {:trigger t.list[j]} | 0 <= j < |t.list| ensures IsLinked(t, t.list[j]) {
      var k := Old(i, j);
      assert IsLinked(l, l.list[k]) && IsLinked(l, l.list[i]);
      assert l.nodes[l.list[k]].rank != l.nodes[l.list[i]].rank;
    }
  }

  lemma ShrinksSorted(l: Links, t: Links, i: nat)
    requires AllLinked(l) && Sorted(l) && Shrinks(l, t, i)
    requires forall d :: IsLinked(l, d) ==> d in l.list
    ensures AllLinked(t) && Sorted(t) && forall d :: IsLinked(t, d) ==> d in t.list
  {
    ShrinksLinked(l, t, i);
    forall a, b {:trigger t.list[a], t.list[b]} | 0 <= a < b < |t.list|
      ensures t.nodes[t.list[a]].rank < t.nodes[t.list[b]].rank
    {
      assert IsLinked(l, l.list[Old(i, a)]) && IsLinked(l, l.list[Old(i, b)]);
      assert l.nodes[l.list[Old(i, a)]].rank < l.nodes[l.list[Old(i, b)]].rank;
    }
    forall d | IsLinked(t, d) ensures d in t.list {
      var k :| 0 <= k < |l.list| && l.list[k] == d;
      assert t.list[if k < i then k else k - 1] == d;
    }
  }

  lemma UnlinkForward(l: Links, t: Links, x: Ptr, p: Ptr, i: nat, j: nat)
    requires 0 !in l.nodes && AllLinked(l) && Sorted(l) && Forward(l) && i < |l.list|
    requires x == At(l.list, i + 1) && p == At(l.list, i - 1) && (p != 0) == (i > 0)
    requires Shrinks(l, t, i) && AllLinked(t) && j < |t.list|
    requires forall d {:trigger t.nodes[d]} :: d in l.nodes ==> t.nodes[d].next == if d == p then x else l.nodes[d].next
    ensures ForwardAt(t, j)
  {
    var k := Old(i, j);
    assert t.list[j] == l.list[k] && IsLinked(l, l.list[k]) && ForwardAt(l, k);
    if j + 1 < |t.list| { assert t.list[j + 1] == l.list[Old(i, j + 1)]; }
    if i > 0 {
      assert IsLinked(l, l.list[i - 1]);
      assert k < i - 1 ==> l.nodes[l.list[k]].rank < l.nodes[l.list[i - 1]].rank;
      assert k > i - 1 ==> l.nodes[l.list[i - 1]].rank < l.nodes[l.list[k]].rank;
    }
  }

  lemma UnlinkHead(l: Links, op: Op, i: nat)
    requires AllLinked(l) && Forward(l) && op.ErUnlink? && i < |l.list| && l.list[i] == op.c
    requires op.x == At(l.list, i + 1) && (op.p != 0) == (i > 0)
    requires Without(l.list, op.c) == l.list[..i] + l.list[i + 1..] && (op.p != 0 ==> op.p in l.nodes && op.p != op.c)
    ensures var (t, next, dead) := Write(l, op); t.head == At(t.list, 0)
  {
  }

  lemma UnlinkList(l: Links, op: Op) returns (i: nat)
    requires ListOk(l) && BacksOk(l, op) && op.ErUnlink? && OpOk(l, op)
    ensures var (t, next, dead) := Write(l, op); ListOk(t) && Shrinks(l, t, i) && l.list[i] == op.c
    ensures op.x == At(l.list, i + 1) && op.p == At(l.list, i - 1)
    ensures (op.p != 0 ==> IsLinked(l, op.p) && op.p != op.c) && (op.x != 0 ==> IsLinked(l, op.x) && op.x != op.c)
    ensures (op.x != 0) == (i + 1 < |l.list|)
  {
    i := UnlinkAt(l, op);
    UnlinkShrinks(l, op, i);
    UnlinkHead(l, op, i);
    UnlinkNodes(l, op);
    var (t, next, dead) := Write(l, op);
    ShrinksOk(l, t, op.x, op.p, i);
  }

  /** Taking node i out of the chain leaves a chain of the others. */
  lemma ShrinksOk(l: Links, t: Links, x: Ptr, p: Ptr, i: nat)
    requires ListOk(l) && Shrinks(l, t, i) && t.head == At(t.list, 0)
    requires x == At(l.list, i + 1) && p == At(l.list, i - 1) && (p != 0) == (i > 0)
    requires forall d {:trigger t.nodes[d]} :: d in l.nodes ==> t.nodes[d].next == if d == p then x else l.nodes[d].next
    ensures ListOk(t)
  {
    ShrinksSorted(l, t, i);
    forall j {:trigger ForwardAt(t, j)} | 0 <= j < |t.list| ensures ForwardAt(t, j) { UnlinkForward(l, t, x, p, i, j); }
  }

  lemma UnlinkShrinks(l: Links, op: Op, i: nat)
    requires 0 !in l.nodes && op.ErUnlink? && IsLinked(l, op.c) && (op.p != 0 ==> IsLinked(l, op.p) && op.p != op.c)
    requires i < |l.list| && l.list[i] == op.c && Without(l.list, op.c) == l.list[..i] + l.list[i + 1..]
    ensures var (t, next, dead) := Write(l, op); Shrinks(l, t, i)
  {
    UnlinkNodes(l, op);
  }

  lemma UnlinkBack(l: Links, t: Links, op: Op, i: nat, j: nat)
    requires 0 !in l.nodes && AllLinked(l) && Sorted(l) && op.ErUnlink? && i < |l.list| && l.list[i] == op.c
    requires op.x == At(l.list, i + 1) && (op.x != 0) == (i + 1 < |l.list|)
    requires Shrinks(l, t, i) && AllLinked(t) && j < |t.list| && BackAt(l, op, Old(i, j))
    requires t.nodes[t.list[j]].back == l.nodes[l.list[Old(i, j)]].back
    ensures BackAt(t, ErRelink(op.c, op.x, op.p), j)
  {
    var k := Old(i, j);
    assert t.list[j] == l.list[k];
    if j > 0 { assert t.list[j - 1] == l.list[Old(i, j - 1)]; }
    UnlinkedNeighbour(l, i, k, op.x);
  }

  /** Only the successor of the unlinked node is named by x. */
  lemma UnlinkedNeighbour(l: Links, i: nat, k: nat, x: Ptr)
    requires 0 !in l.nodes && AllLinked(l) && Sorted(l) && i < |l.list| && k < |l.list|
    requires x == At(l.list, i + 1) && (x != 0) == (i + 1 < |l.list|)
    ensures l.list[k] == x <==> k == i + 1
  {
    assert IsLinked(l, l.list[k]);
    if i + 1 < |l.list| {
      assert IsLinked(l, l.list[i + 1]);
      assert k < i + 1 ==> l.nodes[l.list[k]].rank < l.nodes[l.list[i + 1]].rank;
      assert k > i + 1 ==> l.nodes[l.list[i + 1]].rank < l.nodes[l.list[k]].rank;
    }
  }

  lemma UnlinkBackAt(l: Links, t: Links, op: Op, i: nat, j: nat)
    requires ListOk(l) && BacksOk(l, op) && op.ErUnlink? && i < |l.list| && l.list[i] == op.c
    requires op.x == At(l.list, i + 1) && (op.x != 0) == (i + 1 < |l.list|)
    requires Shrinks(l, t, i) && AllLinked(t) && j < |t.list|
    requires forall d {:trigger t.nodes[d]} :: d in l.nodes ==> t.nodes[d].back == l.nodes[d].back
    ensures BackAt(t, ErRelink(op.c, op.x, op.p), j)
  {
    assert t.list[j] == l.list[Old(i, j)] && IsLinked(l, l.list[Old(i, j)]) && BackAt(l, op, Old(i, j));
    UnlinkBack(l, t, op, i, j);
  }

  lemma UnlinkBacks(l: Links, op: Op, i: nat)
    requires ListOk(l) && BacksOk(l, op) && op.ErUnlink? && OpOk(l, op) && i < |l.list| && l.list[i] == op.c
    requires op.x == At(l.list, i + 1) && (op.x != 0) == (i + 1 < |l.list|)
    requires op.p != 0 ==> IsLinked(l, op.p) && op.p != op.c
    requires var (t, next, dead) := Write(l, op); ListOk(t) && Shrinks(l, t, i)
    ensures var (t, next, dead) := Write(l, op);
            forall j {:trigger BackAt(t, next, j)} :: 0 <= j < |t.list| ==> BackAt(t, next, j)
  {
    var (t, next, dead) := Write(l, op);
    UnlinkNodes(l, op);
    ShrinksBacks(l, t, op, i);
  }

  lemma ShrinksBacks(l: Links, t: Links, op: Op, i: nat)
    requires ListOk(l) && BacksOk(l, op) && op.ErUnlink? && i < |l.list| && l.list[i] == op.c
    requires op.x == At(l.list, i + 1) && (op.x != 0) == (i + 1 < |l.list|)
    requires Shrinks(l, t, i) && AllLinked(t)
    requires forall d {:trigger t.nodes[d]} :: d in l.nodes ==> t.nodes[d].back == l.nodes[d].back
    ensures var next := ErRelink(op.c, op.x, op.p);
            forall j {:trigger BackAt(t, next, j)} :: 0 <= j < |t.list| ==> BackAt(t, next, j)
  {
    var next := ErRelink(op.c, op.x, op.p);
    forall j {:trigger BackAt(t, next, j)} | 0 <= j < |t.list| ensures BackAt(t, next, j) { UnlinkBackAt(l, t, op, i, j); }
  }

  lemma UnlinkTail(l: Links, op: Op, i: nat)
    requires 0 !in l.nodes && AllLinked(l) && op.ErUnlink? && OpOk(l, op) && i < |l.list| && l.list[i] == op.c
    requires op.x == At(l.list, i + 1) && op.p == At(l.list, i - 1) && (op.x != 0) == (i + 1 < |l.list|)
    requires op.p != 0 ==> IsLinked(l, op.p) && op.p != op.c
    requires l.tail == ExpectedTail(l, op)
    requires var (t, next, dead) := Write(l, op); Shrinks(l, t, i)
    ensures var (t, next, dead) := Write(l, op); OpOk(t, next) && t.tail == ExpectedTail(t, next)
  {
    var (t, next, dead) := Write(l, op);
    UnlinkNodes(l, op);
    ShrinksNeighbours(l, t, i);
  }

  /** The neighbours of the element that was cut out. */
  lemma ShrinksNeighbours(l: Links, t: Links, i: nat)
    requires Shrinks(l, t, i)
    ensures At(t.list, i) == At(l.list, i + 1) && At(t.list, i - 1) == At(l.list, i - 1)
  {
    if i + 1 < |l.list| { assert t.list[i] == l.list[Old(i, i)]; }
    if i > 0 { assert t.list[i - 1] == l.list[Old(i, i - 1)]; }
  }

  /** The node being unlinked freezes with its successor linked. */
  lemma UnlinkFrozen(l: Links, op: Op, i: nat)
    requires ListOk(l) && op.ErUnlink? && OpOk(l, op) && i < |l.list| && l.list[i] == op.c
    requires op.x == At(l.list, i + 1) && (op.x != 0) == (i + 1 < |l.list|)
    requires op.p != 0 ==> IsLinked(l, op.p) && op.p != op.c
    ensures var (t, next, dead) := Write(l, op); op.c in t.nodes && FrozenOk(t, op.c)
  {
    UnlinkNodes(l, op);
    forall x {:trigger IsLinked(l, x)} | IsLinked(l, x) && l.nodes[x].rank > l.nodes[op.c].rank
      ensures op.x != 0 && op.x in l.nodes && l.nodes[op.x].rank <= l.nodes[x].rank
    {
      RightOf(l, i, x);
    }
    if op.x != 0 { NextRank(l, i); }
  }

  lemma NextRank(l: Links, i: nat)
    requires AllLinked(l) && Sorted(l) && i + 1 < |l.list|
    ensures IsLinked(l, l.list[i]) && IsLinked(l, l.list[i + 1])
    ensures l.nodes[l.list[i]].rank < l.nodes[l.list[i + 1]].rank
  {
  }

  /** What lies to the right of position i lies at position i + 1 or beyond. */
  lemma RightOf(l: Links, i: nat, x: Ptr)
    requires AllLinked(l) && Sorted(l) && i < |l.list| && x in l.list && l.nodes[x].rank > l.nodes[l.list[i]].rank
    ensures i + 1 < |l.list| && IsLinked(l, l.list[i + 1]) && l.nodes[l.list[i + 1]].rank <= l.nodes[x].rank
  {
    var k :| 0 <= k < |l.list| && l.list[k] == x;
    assert IsLinked(l, l.list[k]) && IsLinked(l, l.list[i]);
    assert k > i + 1 ==> l.nodes[l.list[i + 1]].rank < l.nodes[l.list[k]].rank;
  }

  /** What UnlinkNodes says of the nodes, on values. */
  ghost predicate Cuts(l: Links, t: Links, c: Ptr) {
    && t.nodes.Keys == l.nodes.Keys && c in l.nodes && l.nodes[c].status == Linked
    && t.now == l.now + 1 && t.bot == l.bot && t.top == l.top
    && t.nodes[c] == l.nodes[c].(status := Transit, gone := l.now)
    && (forall d {:trigger t.nodes[d]} :: d in l.nodes && d != c ==>
          && t.nodes[d] == l.nodes[d].(next := t.nodes[d].next)
          && (t.nodes[d].next != l.nodes[d].next ==> l.nodes[d].status.Linked?))
  }

  lemma UnlinkCuts(l: Links, op: Op)
    requires 0 !in l.nodes && op.ErUnlink? && IsLinked(l, op.c) && (op.p != 0 ==> IsLinked(l, op.p) && op.p != op.c)
    ensures var (t, next, dead) := Write(l, op); Cuts(l, t, op.c) && next == ErRelink(op.c, op.x, op.p)
  {
  }

  lemma CutsRanks(l: Links, t: Links, c: Ptr)
    requires Cuts(l, t, c) && RanksOk(l)
    ensures RanksOk(t)
  {
    forall d | d in t.nodes ensures DatesOk(t, d) { assert DatesOk(l, d); }
  }

  lemma CutsNodes(l: Links, t: Links, op: Op)
    requires 0 !in l.nodes && op.ErUnlink? && Cuts(l, t, op.c) && NodesOk(l, op)
    ensures NodesOk(t, ErRelink(op.c, op.x, op.p))
  {
    forall d | d in t.nodes ensures NodeOk(t.nodes[d], d, ErRelink(op.c, op.x, op.p)) { assert NodeOk(l.nodes[d], d, op); }
  }

  lemma CutsEvolve(l: Links, t: Links, op: Op, m: int)
    requires 0 !in l.nodes && op.ErUnlink? && Cuts(l, t, op.c) && NodesOk(l, op)
    ensures Evolves(l, t, m) && SameRetired(l, t)
  {
    forall d | d in l.nodes ensures l.nodes[d].status != Transit { assert NodeOk(l.nodes[d], d, op); }
  }

  lemma UnlinkEvolves(l: Links, op: Op, m: int)
    requires RanksOk(l) && 0 !in l.nodes && NodesOk(l, op) && op.ErUnlink? && IsLinked(l, op.c)
    requires op.p != 0 ==> IsLinked(l, op.p) && op.p != op.c
    ensures var (t, next, dead) := Write(l, op);
            RanksOk(t) && NodesOk(t, next) && Evolves(l, t, m) && SameRetired(l, t)
  {
    var (t, next, dead) := Write(l, op);
    UnlinkCuts(l, op);
    CutsRanks(l, t, op.c);
    CutsNodes(l, t, op);
    CutsEvolve(l, t, op, m);
  }

  lemma UnlinkOk(l: Links, op: Op, floor: int, m: int)
    requires LinksInv(l, op, floor) && op.ErUnlink? && RetiredBelow(l, m)
    ensures WriteOk(l, op, floor, m)
  {
    var (t, next, dead) := Write(l, op);
    var i := UnlinkList(l, op);
    UnlinkBacks(l, op, i);
    UnlinkTail(l, op, i);
    UnlinkFrozen(l, op, i);
    UnlinkEvolves(l, op, m);
    UnlinkNodes(l, op);
    forall d | d in t.nodes && Frozen(t.nodes[d], floor) ensures FrozenOk(t, d) {
      if d != op.c { EvolvesFrozen(l, t, m, floor, d); }
    }
  }

  /** Every step of push_back, push_front and erase keeps the structure in order. */
  lemma WriteInv(l: Links, op: Op, floor: int, m: int)
    requires LinksInv(l, op, floor) && Mutating(op) && RetiredBelow(l, m)
    ensures WriteOk(l, op, floor, m)
  {
    match op
    case EmptyHead(_) => LinkFirst(l, op, floor, m);
    case PbNext(_, _) => LinkLast(l, op, floor, m);
    case PfHead(_, _) => LinkFront(l, op, floor, m);
    case ErUnlink(_, _, _) => UnlinkOk(l, op, floor, m);
    case _ => LocalOk(l, op, floor, m);
  }
}
