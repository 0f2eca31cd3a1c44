/** Which slots fit a signal, and what data they receive: the compile-time check
    of connect, the run-time chain of TeaCup base classes, and Bento equality. */
module Dispatch {

  /** A C++ type, by name. */
  type Type = nat

  ghost predicate IsPrefix<T(!new)>(a: seq<T>, b: seq<T>) {
    exists rest :: b == a + rest
  }

  // -------------------------------------------------- cs_check_connect_args

  /** IllFormed: it does not compile, because two partial specializations match and
      neither is more specialized, or because the primary template asks a function
      pointer for operator(). */
  datatype Verdict = Accept | Reject | IllFormed

  /** What is passed as slot: a plain function pointer, a method pointer, or a
      class with operator(). Only a method pointer that is not const is taken by the
      overload of connect for method pointers; all else goes to the other one. */
  datatype Slot =
    | FunctionPtr(returnsVoid: bool, args: seq<Type>)
    | MethodPtr(isConst: bool, returnsVoid: bool, args: seq<Type>)
    | Closure(returnsVoid: bool, args: seq<Type>)

  /** The specializations for two function pointers returning void: equal first
      types, no slot types, equal numbers of different types, fewer signal types. */
  predicate EqualHeads(signal: seq<Type>, slot: seq<Type>) { signal != [] && slot != [] && signal[0] == slot[0] }
  predicate NoSlotTypes(signal: seq<Type>, slot: seq<Type>) { slot == [] }
  predicate Different(signal: seq<Type>, slot: seq<Type>) { |signal| == |slot| && signal != slot }
  predicate Fewer(signal: seq<Type>, slot: seq<Type>) { |signal| < |slot| }

  /** The one specialization that matches. The conditions of the last two stand in a
      non-deduced context, so that they are not ordered with the first. */
  function CheckArgs(signal: seq<Type>, slot: seq<Type>): Verdict {
    if EqualHeads(signal, slot) then
      if Different(signal, slot) || Fewer(signal, slot) then IllFormed else CheckArgs(signal[1..], slot[1..])
    else if NoSlotTypes(signal, slot) then Accept
    else if Different(signal, slot) || Fewer(signal, slot) then Reject
    else IllFormed
  }

  /** Whether the result type of the slot can keep it from matching: the overload for
      method pointers passes on the argument types alone, the other one the type of
      the slot, and then it needs to return void to match a specialization. */
  predicate ResultFits(slot: Slot) {
    (slot.MethodPtr? && !slot.isConst) || slot.returnsVoid
  }

  /** The check as connect asks it. */
  function CheckConnect(signal: seq<Type>, slot: Slot): Verdict {
    if ResultFits(slot) then CheckArgs(signal, slot.args) else IllFormed
  }

  lemma PrefixIsPrefix<T(!new)>(a: seq<T>, b: seq<T>)
    ensures IsPrefix(a, b) <==> a <= b
  {
    if a <= b { assert b == a + b[|a|..]; }
  }

  /** The check accepts exactly the prefixes. A mismatch is the intended rejection
      when the first types differ and the signal is not longer than the slot, and a
      hard error otherwise. */
  lemma {:induction false} CheckArgsExact(signal: seq<Type>, slot: seq<Type>)
    ensures CheckArgs(signal, slot) == Accept <==> IsPrefix(slot, signal)
    ensures CheckArgs(signal, slot) == Reject <==>
              !IsPrefix(slot, signal) && |signal| <= |slot| && (signal == [] || signal[0] != slot[0])
    ensures CheckArgs(signal, slot) == IllFormed <==>
              !IsPrefix(slot, signal) && (|signal| > |slot| || (signal != [] && signal[0] == slot[0]))
  {
    PrefixIsPrefix(slot, signal);
    if slot != [] && signal != [] && signal[0] == slot[0] {
      CheckArgsExact(signal[1..], slot[1..]);
      PrefixIsPrefix(slot[1..], signal[1..]);
      assert slot <= signal <==> slot[1..] <= signal[1..];
    }
  }

  // -------------------------------------------------- removing the last type

  /** strip: all but the last. */
  function Strip(types: seq<Type>): seq<Type> {
    if |types| < 2 then [] else [types[0]] + Strip(types[1..])
  }

  /** makeIntValues<max>: 0, 1, ..., max - 1 in front of what is there already. */
  function MakeIntValues(max: nat, values: seq<nat>): seq<nat>
    decreases max
  {
    if max == 0 then values else MakeIntValues(max - 1, [max - 1] + values)
  }

  /** internalRemoveData: the elements at the given positions. */
  function Gather<T>(positions: seq<nat>, data: seq<T>): seq<T>
    requires forall i :: 0 <= i < |positions| ==> positions[i] < |data|
  {
    if positions == [] then [] else [data[positions[0]]] + Gather(positions[1..], data)
  }

  lemma {:induction false} StripDropsLast(types: seq<Type>)
    requires types != []
    ensures Strip(types) == types[..|types| - 1]
  {
    if |types| >= 2 {
      StripDropsLast(types[1..]);
      assert types[..|types| - 1] == [types[0]] + types[1..][..|types| - 2];
    }
  }

  lemma {:induction false} MakeIntValuesCounts(max: nat, values: seq<nat>)
    ensures |MakeIntValues(max, values)| == max + |values|
    ensures forall i :: 0 <= i < max ==> MakeIntValues(max, values)[i] == i
    ensures forall i :: max <= i < max + |values| ==> MakeIntValues(max, values)[i] == values[i - max]
    decreases max
  {
    if max > 0 { MakeIntValuesCounts(max - 1, [max - 1] + values); }
  }

  lemma {:induction false} GatherAt<T>(positions: seq<nat>, data: seq<T>)
    requires forall i :: 0 <= i < |positions| ==> positions[i] < |data|
    ensures |Gather(positions, data)| == |positions|
    ensures forall i :: 0 <= i < |positions| ==> Gather(positions, data)[i] == data[positions[i]]
  {
    if positions != [] { GatherAt(positions[1..], data); }
  }

  /** funcRemoveData on a non-empty tuple. */
  function RemoveData<T>(data: seq<T>): (r: seq<T>)
    requires data != []
    ensures r == data[..|data| - 1]
  {
    var positions := MakeIntValues(|data| - 1, []);
    MakeIntValuesCounts(|data| - 1, []);
    GatherAt(positions, data);
    Gather(positions, data)
  }

  // -------------------------------------------------- the TeaCup chain

  /** TeaCup<Ts...> has the base TeaCup<strip(Ts...)>, down to TeaCup<>: the types
      of all of them, which are the targets a dynamic_cast finds. */
  function Bases(types: seq<Type>): seq<seq<Type>>
    decreases |types|
  {
    if types == [] then [[]]
    else
      StripDropsLast(types);
      [types] + Bases(Strip(types))
  }

  /** getData of the base with n arguments: the derived class's lambda hands down
      its own data without the last element. */
  function GetData<T>(data: seq<T>, n: nat): seq<T>
    requires n <= |data|
    decreases |data|
  {
    if n == |data| then data else GetData(RemoveData(data), n)
  }

  /** dynamic_cast to TeaCup<slot...> of the data of a signal with these types. */
  predicate CastFinds(signal: seq<Type>, slot: seq<Type>) {
    slot in Bases(signal)
  }

  lemma {:induction false} CastFindsPrefixes(signal: seq<Type>, slot: seq<Type>)
    ensures CastFinds(signal, slot) <==> IsPrefix(slot, signal)
    decreases |signal|
  {
    PrefixIsPrefix(slot, signal);
    if signal != [] {
      StripDropsLast(signal);
      CastFindsPrefixes(Strip(signal), slot);
      PrefixIsPrefix(slot, Strip(signal));
      assert Bases(signal) == [signal] + Bases(Strip(signal));
      assert slot <= signal <==> slot == signal || slot <= signal[..|signal| - 1];
    }
  }

  lemma {:induction false} GetDataIsPrefix<T>(data: seq<T>, n: nat)
    requires n <= |data|
    ensures GetData(data, n) == data[..n]
    decreases |data|
  {
    if n < |data| {
      GetDataIsPrefix(RemoveData(data), n);
      assert data[..|data| - 1][..n] == data[..n];
    }
  }

  /** What a slot with these parameter types is called with, if at all. */
  datatype Call<T> = NotCalled | Called(args: seq<T>)

  /** Bento::invoke on the data of an emission. */
  function Invoke<T>(signal: seq<Type>, data: seq<T>, slot: seq<Type>): Call<T>
    requires |data| == |signal|
  {
    if CastFinds(signal, slot) then
      CastFindsPrefixes(signal, slot);
      PrefixIsPrefix(slot, signal);
      Called(GetData(data, |slot|))
    else NotCalled
  }

  /** What compiles is what is called: both the check and the invocation take exactly
      the slots whose types are a prefix of the signal's (lambdas, functions and const
      methods that return a value never compile), and the slot gets the matching prefix
      of the arguments. */
  lemma PrefixAgreement<T>(signal: seq<Type>, data: seq<T>, slot: Slot)
    requires |data| == |signal|
    ensures Invoke(signal, data, slot.args).Called? <==> IsPrefix(slot.args, signal)
    ensures CheckConnect(signal, slot) == Accept <==>
              IsPrefix(slot.args, signal) && ((slot.MethodPtr? && !slot.isConst) || slot.returnsVoid)
    ensures Invoke(signal, data, slot.args).Called? ==>
              |slot.args| <= |data| && Invoke(signal, data, slot.args).args == data[..|slot.args|]
  {
    CheckArgsExact(signal, slot.args);
    CastFindsPrefixes(signal, slot.args);
    PrefixIsPrefix(slot.args, signal);
    if slot.args <= signal { GetDataIsPrefix(data, |slot.args|); }
  }

  // -------------------------------------------------- Bento equality

  /** A signal or a slot: the type of the pointer and its value, or a lambda. */
  datatype Bento = Method(ptrType: Type, value: nat) | Function(ptrType: Type, value: nat) | Lambda(ptrType: Type, value: nat)
  {
    /** operator==: a lambda equals nothing, not even itself; pointers are compared
        when the dynamic types are the same. */
    predicate Same(right: Bento) {
      match this
      case Lambda(_, _) => false
      case Method(t, v) => right.Method? && right.ptrType == t && right.value == v
      case Function(t, v) => right.Function? && right.ptrType == t && right.value == v
    }
  }
}
