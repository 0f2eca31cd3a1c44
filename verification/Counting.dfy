/** Occurrences in a sequence, cutting an element out of one, and selections from one. */
module Counting {
  /** How often x occurs. */
  function CountOf<T(==)>(q: seq<T>, x: T): nat {
    if q == [] then 0 else (if q[0] == x then 1 else 0) + CountOf(q[1..], x)
  }

  lemma {:induction false} CountOfAppend<T>(a: seq<T>, b: seq<T>, x: T)
    ensures CountOf(a + b, x) == CountOf(a, x) + CountOf(b, x)
  {
    if a == [] {
      assert a + b == b;
    } else {
      CountOfAppend(a[1..], b, x);
      assert (a + b)[1..] == a[1..] + b;
    }
  }

  lemma {:induction false} CountOfPositive<T>(q: seq<T>, x: T)
    ensures CountOf(q, x) > 0 <==> x in q
  {
    if q != [] { CountOfPositive(q[1..], x); }
  }

  /** q with position k cut out. */
  function CutAt<T>(q: seq<T>, k: nat): seq<T>
    requires k < |q|
  {
    q[..k] + q[k + 1..]
  }

  lemma CountOfCut<T>(q: seq<T>, k: nat, x: T)
    requires k < |q|
    ensures CountOf(CutAt(q, k), x) == CountOf(q, x) - (if q[k] == x then 1 else 0)
  {
    assert q == q[..k] + ([q[k]] + q[k + 1..]);
    CountOfAppend(q[..k], [q[k]] + q[k + 1..], x);
    CountOfAppend([q[k]], q[k + 1..], x);
    CountOfAppend(q[..k], q[k + 1..], x);
  }

  /** out is what stands in q at the positions at, in the order of q. */
  ghost predicate Selection<T>(q: seq<T>, out: seq<T>, at: seq<nat>) {
    && |at| == |out| && (forall j, k :: 0 <= j < k < |at| ==> at[j] < at[k])
    && forall k :: 0 <= k < |at| ==> at[k] < |q| && out[k] == q[at[k]]
  }

  /** A selection from the tail is one from the whole. */
  lemma SelectTail<T>(q: seq<T>, out: seq<T>, at: seq<nat>) returns (more: seq<nat>)
    requires q != [] && Selection(q[1..], out, at)
    ensures Selection(q, out, more) && forall i: nat :: i in more <==> i > 0 && i - 1 in at
  {
    more := seq(|at|, k requires 0 <= k < |at| => at[k] + 1);
    assert forall k :: 0 <= k < |at| ==> more[k] == at[k] + 1;
    forall i: nat ensures i in more <==> i > 0 && i - 1 in at {
      if i > 0 && i - 1 in at {
        var k :| 0 <= k < |at| && at[k] == i - 1;
        assert more[k] == i;
      }
    }
  }

  /** The first element can be selected as well. */
  lemma SelectHead<T>(q: seq<T>, out: seq<T>, at: seq<nat>) returns (more: seq<nat>)
    requires q != [] && Selection(q[1..], out, at)
    ensures Selection(q, [q[0]] + out, more) && forall i: nat :: i in more <==> i == 0 || i - 1 in at
  {
    var rest := SelectTail(q, out, at);
    more := [0] + rest;
    assert forall k :: 0 < k < |more| ==> more[k] == rest[k - 1] && rest[k - 1] in rest;
    forall i: nat ensures i in more <==> i == 0 || i - 1 in at {
      assert i in more <==> i == 0 || i in rest;
    }
  }
}
