/** rcu_list as one thread sees it under the write lock: linked node objects that
    the operations change in place, refining a sequence. */
module RcuList {
  import opened Counting

  class Node<T> {
    const data: T
    var next: Node?<T>
    var back: Node?<T>
    var deleted: bool

    constructor (data: T)
      ensures this.data == data && next == null && back == null && !deleted
    {
      this.data := data;
      next, back, deleted := null, null, false;
    }
  }

  /** q without the elements that drop holds of. */
  function Reject<T>(q: seq<T>, drop: T -> bool): seq<T> {
    if q == [] then []
    else if drop(q[0]) then Reject(q[1..], drop)
    else [q[0]] + Reject(q[1..], drop)
  }

  lemma {:induction false} RejectAppend<T>(a: seq<T>, b: seq<T>, drop: T -> bool)
    ensures Reject(a + b, drop) == Reject(a, drop) + Reject(b, drop)
  {
    if a == [] {
      assert a + b == b;
    } else {
      RejectAppend(a[1..], b, drop);
      assert (a + b)[1..] == a[1..] + b && (a + b)[0] == a[0];
    }
  }

  /** What is left: the elements that drop does not hold of, in order. */
  lemma {:induction false} RejectSelects<T>(q: seq<T>, drop: T -> bool) returns (at: seq<nat>)
    ensures Selection(q, Reject(q, drop), at) && forall i: nat :: i in at <==> i < |q| && !drop(q[i])
  {
    at := [];
    if q != [] {
      at := RejectSelects(q[1..], drop);
      if drop(q[0]) { at := SelectTail(q, Reject(q[1..], drop), at); }
      else { at := SelectHead(q, Reject(q[1..], drop), at); }
    }
  }

  /** A loop over q has reached i: what it has left of q. */
  function Stage<T>(q: seq<T>, i: nat, drop: T -> bool): (stage: seq<T>)
    requires i <= |q|
    ensures |stage| == |Reject(q[..i], drop)| + |q| - i
  {
    Reject(q[..i], drop) + q[i..]
  }

  /** The loop examines q[i], which stands behind the k elements kept so far:
      the element stays where it is, or is cut out. */
  lemma StageStep<T>(q: seq<T>, i: nat, drop: T -> bool)
    requires i < |q|
    ensures var stage, k := Stage(q, i, drop), |Reject(q[..i], drop)|;
            && k < |stage| && stage[k] == q[i]
            && Stage(q, i + 1, drop) == (if drop(q[i]) then stage[..k] + stage[k + 1..] else stage)
            && |Reject(q[..i + 1], drop)| == (if drop(q[i]) then k else k + 1)
  {
    var before := Reject(q[..i], drop);
    RejectAppend(q[..i], [q[i]], drop);
    assert q[..i + 1] == q[..i] + [q[i]];
    var stage := before + q[i..];
    assert stage[..|before|] == before && stage[|before| + 1..] == q[i + 1..];
    assert Reject([q[i]], drop) == if drop(q[i]) then [] else [q[i]];
    assert before + [q[i]] + q[i + 1..] == stage;
  }

  lemma StageEnds<T>(q: seq<T>, drop: T -> bool)
    ensures Stage(q, 0, drop) == q && Stage(q, |q|, drop) == Reject(q, drop) && |Reject(q[..0], drop)| == 0
    ensures |Reject(q[..|q|], drop)| == |Reject(q, drop)|
  {
    assert q[..|q|] == q;
  }

  /** Something is rejected exactly when something matches. */
  lemma {:induction false} RejectShorter<T>(q: seq<T>, drop: T -> bool)
    ensures |Reject(q, drop)| <= |q|
    ensures |Reject(q, drop)| < |q| <==> exists i :: 0 <= i < |q| && drop(q[i])
  {
    if q != [] {
      RejectShorter(q[1..], drop);
      if i :| 0 <= i < |q[1..]| && drop(q[1..][i]) { assert drop(q[i + 1]); }
      if i :| 0 <= i < |q| && drop(q[i]) { assert i > 0 ==> q[1..][i - 1] == q[i]; }
    }
  }

  class List<T> {
    var head: Node?<T>
    var tail: Node?<T>
    ghost var spine: seq<Node<T>>     // the linked nodes, in order
    ghost var erased: set<Node<T>>    // the erased ones, which readers may still hold
    ghost var repr: set<Node<T>>      // all of them

    ghost function Succ(i: int): Node?<T>
      reads this
    {
      if 0 <= i + 1 < |spine| then spine[i + 1] else null
    }

    ghost function Pred(i: int): Node?<T>
      reads this
    {
      if 0 <= i - 1 < |spine| then spine[i - 1] else null
    }

    ghost predicate LinkOk(i: int)
      requires 0 <= i < |spine|
      reads this, spine
    {
      spine[i].next == Succ(i) && spine[i].back == Pred(i) && !spine[i].deleted
    }

    ghost predicate Valid()
      reads this, repr
    {
      && (forall i {:trigger spine[i]} :: 0 <= i < |spine| ==> spine[i] in repr)
      && erased <= repr
      && (forall i, j :: 0 <= i < j < |spine| ==> spine[i] != spine[j])
      && (forall i {:trigger spine[i]} :: 0 <= i < |spine| ==> spine[i] !in erased)
      && (forall n :: n in erased ==> n.deleted)
      && head == Succ(-1) && tail == Pred(|spine|)
      && (forall i {:trigger LinkOk(i)} :: 0 <= i < |spine| ==> LinkOk(i))
    }

    ghost function Contents(): seq<T>
      reads this
    {
      seq(|spine|, i requires 0 <= i < |spine| reads this => spine[i].data)
    }

    constructor ()
      ensures Valid() && Contents() == [] && erased == {} && repr == {}
    {
      head, tail := null, null;
      spine, erased, repr := [], {}, {};
    }

    method PushBack(data: T)
      requires Valid()
      modifies this, repr
      ensures Valid() && |spine| == |old(spine)| + 1 && spine[..|old(spine)|] == old(spine)
      ensures fresh(repr - old(repr)) && erased == old(erased)
      ensures Contents() == old(Contents()) + [data]
    {
      var node := new Node(data);
      var oldTail := tail;
      ghost var q := spine;
      if oldTail == null {
        head := node;
        tail := node;
      } else {
        assert LinkOk(|q| - 1);
        node.back := oldTail;
        oldTail.next := node;
        tail := node;
      }
      spine, repr := spine + [node], repr + {node};
      forall i {:trigger LinkOk(i)} | 0 <= i < |spine| ensures LinkOk(i) {
        if i < |q| { assert old(LinkOk(i)); }
      }
    }

    method PushFront(data: T)
      requires Valid()
      modifies this, repr
      ensures Valid() && |spine| == |old(spine)| + 1 && spine[1..] == old(spine)
      ensures fresh(repr - old(repr)) && erased == old(erased)
      ensures Contents() == [data] + old(Contents())
    {
      var node := new Node(data);
      var oldHead := head;
      ghost var q := spine;
      if oldHead == null {
        head := node;
        tail := node;
      } else {
        assert LinkOk(0);
        node.next := oldHead;
        oldHead.back := node;
        head := node;
      }
      spine, repr := [node] + spine, repr + {node};
      forall i {:trigger LinkOk(i)} | 0 <= i < |spine| ensures LinkOk(i) {
        if i > 0 { assert old(LinkOk(i - 1)); }
      }
    }

    /** Erasing returns the successor.  An erased node is left alone: its own next
        is frozen, so a traversal that stands on it goes on. */
    method Erase(n: Node<T>, ghost at: nat) returns (r: Node?<T>)
      requires Valid() && (n in erased || (at < |spine| && spine[at] == n))
      modifies this, repr
      ensures Valid() && repr == old(repr) && r == old(n.next) && n.next == old(n.next) && n in erased
      ensures old(n.deleted) ==> spine == old(spine) && erased == old(erased) && Contents() == old(Contents())
      ensures !old(n.deleted) ==> spine == old(spine[..at] + spine[at + 1..]) && erased == old(erased) + {n}
      ensures !old(n.deleted) ==> Contents() == old(Contents()[..at] + Contents()[at + 1..])
      ensures forall m :: m in old(erased) ==> m.next == old(m.next)
    {
      if n !in erased { assert spine[at] == n && LinkOk(at); }
      var oldNext := n.next;
      if !n.deleted {
        ghost var q := spine;
        assert q[at] == n && LinkOk(at);
        n.deleted := true;
        var oldPrev := n.back;
        if oldPrev != null {
          oldPrev.next := oldNext;
        } else {
          head := oldNext;
        }
        if oldNext != null {
          oldNext.back := oldPrev;
        } else {
          tail := oldPrev;
        }
        spine := q[..at] + q[at + 1..];
        erased := erased + {n};
        forall i {:trigger LinkOk(i)} | 0 <= i < |spine| ensures LinkOk(i) {
          assert old(LinkOk(if i < at then i else i + 1));
        }
      }
      r := oldNext;
    }

    /** One round of the disconnect loop: erase the node the iterator stands on
        when it matches, and step from it through its own next field. */
    method Examine(iter: Node<T>, ghost at: nat, matches: T -> bool) returns (hit: bool, next: Node?<T>)
      requires Valid() && at < |spine| && spine[at] == iter
      modifies this, repr
      ensures Valid() && repr == old(repr) && hit == matches(iter.data) && next == old(Succ(at))
      ensures if hit then spine == old(spine[..at] + spine[at + 1..]) else spine == old(spine)
      ensures if hit then Contents() == old(Contents()[..at] + Contents()[at + 1..]) else Contents() == old(Contents())
    {
      assert LinkOk(at);
      hit := matches(iter.data);
      if hit {
        var _ := Erase(iter, at);
      }
      next := iter.next;
    }

    /** The same round, seen as progress of a loop over the sequence c. */
    method Round(iter: Node<T>, matches: T -> bool, ghost c: seq<T>, ghost i: nat, ghost k: nat)
      returns (hit: bool, next: Node?<T>, ghost k': nat)
      requires Valid() && i < |c| && Contents() == Stage(c, i, matches) && k == |Reject(c[..i], matches)|
      requires Succ(k - 1) == iter
      modifies this, repr
      ensures Valid() && repr == old(repr)
      ensures Contents() == Stage(c, i + 1, matches) && k' == |Reject(c[..i + 1], matches)|
      ensures next == Succ(k' - 1) && k' == (if hit then k else k + 1)
    {
      StageStep(c, i, matches);
      hit, next := Examine(iter, k, matches);
      k' := if hit then k else k + 1;
    }

    /** The loop of internal_disconnect leaves the matching elements out. */
    method EraseIf(matches: T -> bool) returns (any: bool)
      requires Valid()
      modifies this, repr
      ensures Valid() && Contents() == Reject(old(Contents()), matches)
      ensures any <==> exists i :: 0 <= i < |old(Contents())| && matches(old(Contents())[i])
    {
      any := false;
      var iter := head;
      ghost var c, i, k := Contents(), 0, 0;
      StageEnds(c, matches);
      RejectShorter(c, matches);
      while iter != null
        invariant Valid() && repr == old(repr) && 0 <= k <= i <= |c| && iter == Succ(k - 1)
        invariant Contents() == Stage(c, i, matches) && k == |Reject(c[..i], matches)|
        invariant any == (k < i)
        decreases |c| - i
      {
        var hit;
        hit, iter, k := Round(iter, matches, c, i, k);
        any := any || hit;
        i := i + 1;
      }
    }
  }

  /** find: the first node whose value is x, or null. */
  method Find<T(==)>(list: List<T>, x: T) returns (n: Node?<T>)
    requires list.Valid()
    ensures n == null <==> x !in list.Contents()
    ensures n != null ==> exists at :: 0 <= at < |list.spine| && n == list.spine[at] && n.data == x && x !in list.Contents()[..at]
  {
    n := list.head;
    ghost var at := 0;
    while n != null
      invariant at <= |list.spine| && n == (if at < |list.spine| then list.spine[at] else null)
      invariant forall i :: 0 <= i < at ==> list.Contents()[i] != x
      decreases |list.spine| - at
    {
      if n.data == x {
        assert list.Contents()[at] == x;
        return;
      }
      assert list.LinkOk(at);
      n := n.next;
      at := at + 1;
    }
  }
}
