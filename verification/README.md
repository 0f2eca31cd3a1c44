# CsSignal: verified model

A Dafny model of the CsSignal library: its lock-free read, single-writer list, the emission of signals while slots
change everything around them, the two-sided registry of connections, the dispatch of arguments to slots, and the
mutexes that tie these together.

| file | what it holds |
|---|---|
| `ZombieStack.dfy` | guards and zombie entries on `m_zombie_head`, one step per atomic load, store or compare-exchange; what an unlocking guard scans, cuts off and frees |
| `RcuLinks.dfy` | `next`, `back`, `m_head`, `m_tail` and the stores of `push_back`, `push_front` and `erase`, one step each |
| `RcuMachine.dfy` | both together with the handles of any number of readers and writers; its invariant is kept by every step |
| `RcuTheorems.dfy`, `RcuTraversal.dfy` | what the invariant means for every interleaving: reclamation, bounded garbage, traversal, linearization, conservation |
| `RcuActions.dfy`, `RcuProgress.dfy` | what the operations do, named by the calls that begin them; that guards, passes and operations come to an end |
| `RcuDestroy.dfy` | the two loops of `~rcu_list` |
| `RcuList.dfy` | the list under the write lock, as node objects changed in place, refining a sequence |
| `Emission.dfy`, `EmissionTheorems.dfy` | `activate` and `~SignalBase`: a stack of activations, with arbitrary slot code in the middle of each traversal, while other threads connect and disconnect |
| `EmissionConnect.dfy`, `EmissionDisconnect.dfy` | what a connect and a disconnect during an emission achieve; that activations come to an end |
| `Registry.dfy` | `connect`, `disconnect`, both destructors and the queries on `m_connectList` and `m_possibleSenders` |
| `Dispatch.dfy` | the compile-time argument check, the `TeaCup` chain, Bento equality |
| `Locks.dfy` | which mutexes threads hold and wait for |
| `RegistryThreads.dfy` | both sides of the registry while any number of threads connect and disconnect, on top of `Locks` |
| `Options.dfy`, `Counting.dfy` | a shared datatype; occurrences in sequences |

Addresses are numbers, 0 is null, and an allocation may return any address that is not live, so the reuse of freed
addresses is part of every statement. Each machine reports a use of a dead object in a field `bad`; safety says that
`bad` is never set. History fields (the log of published entries, the dates and ranks of nodes, the deliveries of an
activation) decide nothing about what the program does next.

Where expectation and code differ, the model follows the code:

* After a slot throws, `activate` sets the current sender again but not the current signal
  (`src/signal/cs_signal.h:228-244`). `SlotStart` says that a slot sees the emitted signal if and only if no earlier
  slot of the same activation threw, and `ThrowLosesSignal` gives a case in which it does not.
* A slot may be called after its connection was disconnected, because a traversal that stands on an erased node goes on
  through the frozen `next` of that node. `DisconnectTooLate` says that a connection disconnected during an activation is
  still called if and only if, at that moment, the traversal stands on its node without having called it, or on an erased
  node from which frozen pointers lead to it; `DisconnectedWhenCalled` says the same of every call, and
  `DisconnectedButCalled` gives a case. A slot whose own connection is listed disconnects in time (`DisconnectInTime`).
* The argument check is not simply false for every mismatch: when the first types agree, or the signal is longer, it does
  not compile, because two partial specializations match or none does (`CheckArgsExact`).

Assumptions: memory is sequentially consistent; one thread at a time emits from and destroys a sender; `handleException`
comes back, takes no mutex and emits nothing; the slots of erased connections that a traversal still reaches belong to
living receivers; no new sender takes the address of a destroyed one before its outermost activation has returned.

## Model

| member | source | states |
|---|---|---|
| RcuTheorems.ReclamationSafety | src/annex/cs_libguarded/cs_rcu_list.h:265-325 | In every interleaving of any number of readers and writers no traversal, erase or unlock scan touches or frees again a data node or zombie entry that has been freed, and every node a handle ever obtained is live while the handle is used |
| RcuTheorems.HeldAbove | src/annex/cs_libguarded/cs_rcu_list.h:271-275 | If a node obtained through a guard has a zombie entry, that entry lies above the guard's own entry on the stack |
| RcuTheorems.ExclusiveReaper | src/annex/cs_libguarded/cs_rcu_list.h:285-325 | However many guards unlock at once, at most one frees entries, and it is the oldest registered guard |
| RcuTheorems.ScanOutsideSegment | src/annex/cs_libguarded/cs_rcu_list.h:292-299 | No scan stands on an entry of the segment that another guard has cut off and is freeing |
| RcuTheorems.ReuseIsHarmless | src/annex/cs_libguarded/cs_rcu_list.h:271-275 | Even if addresses were freed and allocated again between the load of the head and the exchange, after a successful exchange the chain in memory is the new entry followed by the chain as it stood |
| RcuTheorems.BoundedGarbage | src/annex/cs_libguarded/cs_rcu_list.h:285-325 | A guard that was the oldest before its unlock failed has, when it clears its owner, freed everything older than itself: the chain holds only what was pushed since it registered |
| RcuTheorems.ChainIsStack | src/annex/cs_libguarded/cs_rcu_list.h:292-299 | In every reachable state the chain that memory shows from m_zombie_head is the published entries that were not cut off, newest first, each once; and unless a guard is just reclaiming it ends there, however far one reads |
| ZombieStack.AdvanceInv | src/annex/cs_libguarded/cs_rcu_list.h:265-325 | Every atomic step of locking, pushing and unlocking keeps the invariant of the stack, and none touches a dead entry |
| RcuLinks.WriteInv | src/annex/cs_libguarded/cs_rcu_list.h:622-727 | Every single store of push_back, push_front and erase keeps forward chain, backward chain, head, tail and the frozen next of all erased nodes in order, and none touches a dead node |
| RcuMachine.DoInv | src/annex/cs_libguarded/cs_rcu_guarded.h:85-108 | Every action of every handle, from the first access that registers it to its destruction, keeps the invariant of the whole machine |
| RcuTraversal.TraversalCovers | src/annex/cs_libguarded/cs_rcu_list.h:35-44 | A finished pass has visited every node that stayed in the list from its begin to its end, exactly once |
| RcuTraversal.TraversalInOrder | src/annex/cs_libguarded/cs_rcu_list.h:451-454 | Of two nodes that stayed, the one ahead in the list is visited first |
| RcuTraversal.NeverRevisits | src/annex/cs_libguarded/cs_rcu_list.h:451-454 | No pass visits a node twice, also when the nodes it stands on are erased |
| RcuTraversal.VisitsOnlyListed | src/annex/cs_libguarded/cs_rcu_list.h:451-454 | Every node a pass visits was in the list at some moment since the pass began |
| RcuTraversal.HeldWasListed | src/annex/cs_libguarded/cs_rcu_list.h:451-454 | Every node that a handle obtains in any way, by begin, any iterator or erase, was in the list at some moment since its guard was pushed |
| RcuTraversal.ErasedNextIsFrozen | src/annex/cs_libguarded/cs_rcu_list.h:692-727 | The next field of an erased node never changes while the node is live |
| RcuTraversal.ForwardChainIsList | src/annex/cs_libguarded/cs_rcu_list.h:622-727 | In every state, also in the middle of every operation, the chain that memory shows from m_head is the abstract sequence |
| RcuTraversal.OneLinearizationStore | src/annex/cs_libguarded/cs_rcu_list.h:622-727 | Each step of push_back, push_front or erase either is the one store that applies the whole sequence operation, or changes nothing a reader sees, or finds the node erased already |
| RcuActions.ActionLinearizes | src/annex/cs_libguarded/cs_rcu_list.h:622-727 | For a push_front(n), push_back(n) or erase(c) from its beginning to its end, whatever other threads do meanwhile: up to one step the list is what it was, and from then on it is that with n in front, with n at the end, or without c in the same order (and the same if c had been erased before) |
| RcuActions.PushesNewReturnsNext | src/annex/cs_libguarded/cs_rcu_list.h:692-727 | A push puts in a node that was not there; erase gives back the next of the node it was given |
| RcuActions.BeginStep | src/annex/cs_libguarded/cs_rcu_list.h:555-577 | begin() stands on the first node of the list, or at the end if there is none |
| RcuActions.NextStep | src/annex/cs_libguarded/cs_rcu_list.h:451-454 | operator++ goes from a listed node to the one behind it in the list and from an erased node to where its frozen next leads; that is the end or a node that this pass has not visited, and the visited nodes grow by exactly that one |
| RcuActions.PassEnds | src/annex/cs_libguarded/cs_rcu_list.h:451-454 | A pass uses ++ at most as often as there were nodes in the list at any time since its begin, and the last of that many leads to the end |
| RcuActions.HandleSteps | src/annex/cs_libguarded/cs_rcu_guarded.h:85-108 | The first access registers a guard that has obtained nothing, the mutex goes to one writer, which is then the only one that may change the list, and the destructor lets go of nodes, mutex and handle |
| RcuActions.NeverBlocked | src/annex/cs_libguarded/cs_rcu_list.h:35-44 | In every reachable state, also in the middle of a writer's operation, a reader may begin a pass, step on from every node it has obtained, and close |
| RcuProgress.GuardGetsThrough | src/annex/cs_libguarded/cs_rcu_list.h:265-325 | In every reachable state a guard that steps alone has its lock or its push, or is gone, after at most 6 n + 8 steps, where n is the number of entries ever pushed; so a retry of an exchange uses the current head |
| RcuProgress.OperationFinishes | src/annex/cs_libguarded/cs_rcu_list.h:622-727 | In every reachable state the operation under way is over after at most nine further steps of the writer |
| RcuTraversal.Conservation | src/annex/cs_libguarded/cs_rcu_list.h:303-322 | Every live node is in exactly one place: private to its inserter, in the list, in transit inside erase, or held by exactly one zombie entry |
| RcuDestroy.FreeList | src/annex/cs_libguarded/cs_rcu_list.h:523-535 | The first loop frees exactly the linked nodes, in list order, each once |
| RcuDestroy.FreeZombies | src/annex/cs_libguarded/cs_rcu_list.h:537-553 | The second loop frees every entry and every erased node, each once |
| RcuDestroy.Destroy | src/annex/cs_libguarded/cs_rcu_list.h:523-553 | Destroying a list that no guard uses frees every node and every entry exactly once and nothing else; freeing one twice would be reported |
| RcuList.List.PushBack | src/annex/cs_libguarded/cs_rcu_list.h:657-671 | Appends one element; next, back, head and tail represent the new sequence in both directions |
| RcuList.List.PushFront | src/annex/cs_libguarded/cs_rcu_list.h:622-636 | Puts one element in front |
| RcuList.List.Erase | src/annex/cs_libguarded/cs_rcu_list.h:692-727 | Cuts the element out and returns its successor; a second erase of the node changes nothing; the next of no erased node changes |
| RcuList.List.EraseIf | src/signal/cs_signal.h:470-511 | The loop that erases the node it stands on and then steps from it leaves exactly the elements that do not match, in order, and reports whether one did |
| RcuList.RejectSelects | src/signal/cs_signal.h:470-511 | What that loop leaves is the elements at exactly the positions that do not match, in order |
| RcuList.Find | src/signal/cs_signal.h:51-63 | Finds the first node with the value, or none if there is none |
| Emission.DoInv | src/signal/cs_signal.h:147-262 | Every action of user code and of activate keeps the accounting of frames, the set, the saved senders and signals, and every traversal in order |
| EmissionTheorems.NeverUsesTheDead | src/signal/cs_signal.h:184-240 | Whatever slots do, no activation uses a field of a destroyed sender or a connection that does not exist |
| EmissionTheorems.FrameAccounting | src/signal/cs_signal.h:184-185 | m_activateBusy of a living sender is the number of its activations in a slot, and old_activateBusy is 0 exactly in the outermost one |
| EmissionTheorems.BeingDestroyed | src/signal/cs_signal.cpp:26-30 | The set of senders being destroyed is exactly the dead senders with an activation still to return from; it is empty when no activation is running |
| EmissionTheorems.StopsDelivering | src/signal/cs_signal.h:213-226 | Once its sender is destroyed an activation calls no slot and changes none of its variables up to its return, at any nesting depth |
| EmissionTheorems.LeavesAtOnce | src/signal/cs_signal.h:213-240 | When its slot returns or throws it leaves in that step, touches no sender, and takes the sender out of the set exactly if no outer activation of the sender remains |
| EmissionTheorems.Restored | src/signal/cs_signal.h:161-165 | However an activation ends, the current sender and current signal are then what they were before it began |
| EmissionTheorems.SlotStart | src/signal/cs_signal.h:228-244 | Every slot an activation calls starts with its emitting sender as current sender; the current signal is the emitted one if and only if no slot of this activation has thrown in an earlier step, and otherwise the one that was current before the activation |
| EmissionTheorems.ThrowLosesSignal | src/signal/cs_signal.h:228-244 | For every signal there is an emission in which a slot starts with another current signal than the emitted one |
| EmissionTheorems.SignalNeverDangles | src/signal/cs_signal.h:163-165 | The current signal is null or points to the Bento object of an activation that is still running |
| EmissionTheorems.Coverage | src/signal/cs_signal.h:167-258 | An activation whose sender survives it calls every matching connection that is there before and after exactly once, in connection order, and calls no connection that was not listed at some time during it, whatever slots connect, disconnect, emit or throw and other threads connect and disconnect |
| EmissionConnect.ListStep | src/signal/cs_signal.cpp:84-103 | Over all runs: a connect puts a new connection to its signal behind all others, also while the sender is emitting; a disconnect cuts out the connection it names; nothing else changes a list |
| EmissionConnect.SenderStep | src/signal/cs_signal.cpp:21-56 | A sender comes with no connections and goes only by its destructor |
| EmissionConnect.StaysListed | src/signal/cs_signal.cpp:84-103 | A connection stays listed, and its sender alive, until a step removes it or destroys the sender |
| EmissionConnect.ConnectedIsCalled | src/signal/cs_signal.h:167-258 | A connection, made at whatever time, is called exactly once by every later activation for its signal that returns before the connection or its sender is removed |
| EmissionConnect.OwnStep | src/signal/cs_signal.h:170-258 | Every step of activate, and every return of its slot, by exception or not, brings the activation closer to its end, or is its end |
| EmissionConnect.ActivationEnds | src/signal/cs_signal.h:170-262 | In every reachable state the last activation, left to itself and to slots that just return, comes to its end |
| EmissionConnect.SlotsMayDoAnything | src/signal/cs_signal.h:187-214 | A slot may connect, disconnect, emit, destroy the sender, return or throw in every reachable state, and connections may come and go at any time |
| EmissionDisconnect.DisconnectTooLate | src/signal/cs_signal.h:167-173 | A matching connection that a slot or another thread disconnects during an activation is called afterwards if and only if the activation was bound for it: its traversal stood on the node without having called it, or on an erased node from which frozen next pointers lead to it |
| EmissionDisconnect.DisconnectedWhenCalled | src/annex/cs_libguarded/cs_rcu_list.h:451-454 | A connection whose slot is being called is disconnected if and only if some step since the activation began disconnected it while the activation was bound for it |
| EmissionDisconnect.DisconnectInTime | src/signal/cs_signal.h:500-511 | What is disconnected while a slot runs whose own connection is listed is not called any more by that activation |
| EmissionTheorems.DisconnectedButCalled | src/signal/cs_signal.h:170-173 | For every signal there is an emission in which a connection is called after it was disconnected |
| Registry.AddConnection | src/signal/cs_signal.cpp:84-103 | Both lists grow by the one connection, and senders and receivers still agree |
| Registry.Connect | src/signal/cs_signal.h:267-417 | The outcome of each overload, null pointers and unique connections included, the new lists of both sides, and the agreement of all of them |
| Registry.ClashRule | src/signal/cs_signal.h:317-405 | A unique connection is refused by a connection with the same receiver, an equal signal and, except in the overload for lambdas, an equal slot; a lambda equals nothing |
| Registry.MatchingRule | src/signal/cs_signal.h:475-498 | The nested branches mean: every argument given must be equal, where the slot counts only beside a receiver and a lambda equals nothing |
| Registry.RemoveConnection | src/signal/cs_signal.h:500-510 | find succeeds, the receiver loses the first mention of the sender, the sender loses the connection, and all lists agree again |
| Registry.Disconnect | src/signal/cs_signal.h:463-514 | The list is the old one without the matching connections, in order; every receiver loses the sender once per lost connection, first mentions first; the result says whether one matched; all lists agree |
| Registry.UnmatchedSelects | src/signal/cs_signal.h:470-511 | What a disconnect leaves is the connections at exactly the positions that do not match, in order |
| Registry.DropFirstSelects | src/signal/cs_signal.h:505-506 | What it leaves of a receiver's list is everything but the first so many mentions of the sender, in order |
| Registry.DestroySender | src/signal/cs_signal.cpp:21-56 | No receiver names the sender any more, nothing else changes, and what remains agrees and names only the living |
| Registry.WithoutSenderSelects | src/signal/cs_signal.cpp:39-47 | What the destructor leaves of a receiver's list is exactly the mentions of other senders, in order |
| Registry.DestroyReceiver | src/signal/cs_slot.cpp:30-55 | No sender has a connection to the receiver any more, nothing else changes, and what remains agrees and names only the living |
| Registry.WithoutReceiverSelects | src/signal/cs_slot.cpp:39-48 | What the destructor leaves of a sender's list is exactly the connections to other receivers, in order |
| Registry.CountConnections | src/signal/cs_signal.cpp:109-130 | The number of connections with this signal, to this receiver or to any |
| Registry.CountedRule | src/signal/cs_signal.cpp:116-127 | A connection counts if it is to the receiver, when one is given, and its signal is equal and no lambda |
| Registry.ReceiverList | src/signal/cs_signal.cpp:132-149 | Exactly the receivers connected to this signal |
| Registry.SenderList | src/signal/cs_slot.cpp:84-95 | Exactly the living senders that have a connection to the receiver, although only the receiver's own list is read |
| Dispatch.CheckArgsExact | src/signal/cs_internal.h:34-71 | The argument check accepts exactly the prefixes of the signal's types; it rejects a mismatch exactly when the first types differ and the signal is not longer, and does not compile exactly when they agree or the signal is longer |
| Dispatch.StripDropsLast | src/signal/cs_internal.h:222-235 | The recursive strip drops exactly the last type |
| Dispatch.CastFindsPrefixes | src/signal/cs_internal.h:291-354 | The chain of base classes holds the class the run-time cast asks for exactly when the slot's types are a prefix |
| Dispatch.GetDataIsPrefix | src/signal/cs_internal.h:268-279 | Dropping the last element again and again gives the matching prefix of the emitted arguments |
| Dispatch.PrefixAgreement | src/signal/cs_internal.h:516-528 | The run-time cast finds its data exactly when the slot's types are a prefix of the signal's; the slot compiles exactly then and when its result type is one the overload of connect takes (any for a non-const method pointer, void for all else); it is called with the matching prefix |
| Locks.LockDiscipline | src/signal/cs_signal.cpp:95-101 | In every interleaving a thread that waits while holding a mutex holds one m_connectList and waits for an m_possibleSenders; it holds at most one of each, and none in user code |
| Locks.MutualExclusion | src/signal/cs_slot.cpp:36-48 | A thread has locked every list it searches for changes or changes, in connect, disconnect and both destructors, and the set of destroyed senders; no other thread is at such a place for the same list |
| Locks.SlotsRunUnlocked | src/signal/cs_signal.h:187-214 | An activation that finds a match enters its slot, one level deeper, with no mutex held; nothing else goes deeper; a return comes back one level, holding none |
| Locks.NoCyclicWait | src/signal/cs_signal.h:463-514 | No group of threads, of any size, waits for mutexes held within the group |
| Locks.Progress | src/signal/cs_slot.cpp:30-55 | As long as a thread is inside the library, some thread inside it can take its next step |
| RegistryThreads.AgreesWhenFree | src/signal/cs_signal.cpp:84-103 | With any number of threads connecting and disconnecting, each list changed in a step of its own, both sides agree on all connections of a sender whenever the mutex of its list is free |
| RegistryThreads.AtMostOneAhead | src/signal/cs_signal.h:500-511 | While it is held, the sender's side is ahead by at most one connection, to one receiver |
| RegistryThreads.FindNeverFails | src/signal/cs_signal.h:505-506 | In none of these interleavings does the find of a disconnect fail or an iterator stand outside its list |
| RegistryThreads.SenderListChanges | src/signal/cs_signal.h:500-511 | A sender's list changes only by the holder of its mutex, which puts one connection at the end or takes out the one its iterator stands on |
| RegistryThreads.ReceiverListChanges | src/signal/cs_signal.h:504-506 | A receiver's list changes only by the holder of its mutex, which puts the sender at the end or takes out its first mention |
| RegistryThreads.Progress | src/signal/cs_signal.h:463-514 | As long as a thread is inside connect, disconnect or activate, some thread inside can take a step or change its next list |

## Left out

- Emission.DoInv: the connections are the listed and erased nodes of one sender, without receivers and slots; that readers see this of the pointer structure is what `RcuTraversal` and `RcuList` state.
- EmissionTheorems.NeverUsesTheDead: the release of the read handle when an activation returns after its sender was destroyed does nothing here; in the code it reaches the list that was a member of the sender.
- Registry.Disconnect: the lists are sequences in a field of each object; the node objects, and the step from an erased node, are in `RcuList`. Lazy registration of the handles is in `RcuMachine` and `Locks`.
- RegistryThreads.AgreesWhenFree: destructors are left to `Registry`, one at a time; the lists hold receivers and senders only, and which connections match is left open.
- RcuDestroy.Destroy: a list destroyed while guards are active is not modelled; the entries of such guards are not freed.
- RcuMachine.DoInv: nodes carry no payload there, a handle is a guard and a view whose steps are actions (rather than an object), one handle is used by one thread at a time, and memory is sequentially consistent (the relaxed loads of the code are plain loads).
- RcuList.List.Erase: an end iterator, which the code would dereference, is not a legal argument.
- `emplace` inserts after the tail node when given it and is not used by the library; `insert` and `clear` have no definition; `emplace_front` and `emplace_back` repeat the push operations; the `operator--` of the iterators name a field that does not exist.
- Move construction and assignment of handles and guards, allocators, and exceptions from allocation.
- `handleException` that throws, emits or locks; it is called with the mutex of the set of destroyed senders held.
- Emitting from or destroying one sender on several threads at once; `m_activateBusy` is a plain integer.
- Receivers that die while erased connections to them are still ahead of a traversal.
- `queueSlot` and `compareThreads` as overridden by users; the default `queueSlot` calls the slot at once, so every kind of connection is a call in place.
- Signal parameters that are themselves tuples, member pointer casts, macros, `dynamic_cast` of receivers, and the unpacking of tuples into calls.
