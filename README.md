# libevnet reactor core (evbase/evt.c) in Dafny

This project models the bookkeeping of libevnet's single-threaded event loop, as
`evbase/evt.c` implements it, and proves properties of that model. It covers:

- the priority pending queues (`evt_append_pending`, `evt_execute_pending`, the purge of
  the stop functions);
- the fd table with its change batch (`evt_io_start`, `evt_io_stop`, `evt_fd_change`,
  `evt_fd_changes_update`);
- the before and after hook lists (`evt_before_start/stop`, `evt_after_start/stop`);
- the intrusive list primitives (`evt_list_add`, `evt_list_add_tail`, `evt_list_del`);
- the initial state of `evt_loop_init_with_flag`;
- one iteration of `evt_loop_run`.

Layout, module by module:

- `watchers.dfy` (`Watchers`): the watcher record and the observable effects.
  - A watcher is reached by an `Id`. Id 0 is the loop's `empty_ev` sentinel.
  - An effect is a backend `poll_update` call or a callback run.
  - Also here: the clamp `adjust_between` and the growth `check_and_expand_array`.
- `lists.dfy` (`Lists`): the intrusive singly linked lists, seen as the sequence of ids
  met from the head.
- `fdtable.dfy` (`FdTable`): the table of `struct fd_info` and the flush of the change
  batch as a value (`Flush`). It also holds the table's invariant `TableOk`.
- `pending.dfy` (`Pending`): the pending levels and the `pendpos` tokens as values.
  - The append is `Enqueue`, the purge is `Purged`, and what a drain runs is `Fired`.
  - The central invariant `Consistent` says: `pendpos == k > 0` exactly when slot `k - 1`
    of the watcher's priority level holds it. A watcher with `pendpos == 0` is in no
    unconsumed slot.
- `tick.dfy` (`Tick`): one loop iteration as a value (`TickTrace`), and what it runs
  when it starts with nothing queued.
- `loop.dfy` (`Loop`): the loop object `EvtLoop`.
  - Its fields are `pending`/`pendingCnt`, `fds`, `fdsMod`/`fdsModCnt`, the two hook lists
    and the watcher records.
  - Every function of `evt.c` that changes the loop is a method on it, and every method keeps `Valid()`.
  - The drain and the flush are loops with invariants (`Drain`, `DrainLevel`, `FlushBatch`,
    `ListMask`), each proved equal to the value-level function. Their loop bodies are the
    step methods `DrainNext`, `ConsumeSlot` and `FlushOne`.
  - A ghost `log` records the backend calls and the callbacks in order.

Line 192 (`fdi->flag != FD_FLAG_CHANGE;`) compares and throws the result away, so the
fd's change flag is never set. The comment at line 186 ("if this fd is not in fd_mod
array, append it") and the test of the flag at line 187 show the intent: each fd should
be batched at most once. The model keeps the statement as written:

- `TableOk` states that no flag is ever set.
- `FdChange` appends its fd on every call.
- `FlushDedup` proves that the duplicates this produces do not change the flush.

Two more behaviours of evt.c are modelled as they are:

- Starting a hook twice is not rejected. evt.c's list add-tail (lines 282-287) relinks
  an already-listed node after the tail and drops what followed it (`AddTail`,
  `AddTailPresent`), and `evt_before_start` and `evt_after_start` use it unchanged.
- evt.c has only the priority clamp in `evt_timer_start` and an empty `evt_timer_stop`,
  with no timer heap.

## Model

| member | source | states |
|---|---|---|
| Watchers.Clamp | evbase/evt.c:148 | `adjust_between`: the result lies in `[lo, hi]`; it is `x` when `x` is inside, `lo` below, `hi` above |
| Watchers.Reserve | evbase/evt.c:115-116 | the grown array has at least the needed length and at least the old length, keeps the old contents as its prefix, and fills every new cell |
| Lists.Add | evbase/evt.c:277-280 | `evt_list_add`: the node becomes the head and the old list follows it; its properties are `AddCount` and `DelAfterAdd` |
| Lists.AddTail | evbase/evt.c:282-287 | `evt_list_add_tail`: the result is a prefix of the old list followed by the node, at most one node longer |
| Lists.RemoveFirst | evbase/evt.c:289-297 | `evt_list_del`: the list is one node shorter exactly when the node is on it, and holds only nodes of the old list |
| Lists.Attached | evbase/evt.c:234-274 | a hook list is well-formed: no node twice, and every node a started watcher of the list's kind, not the sentinel, with its priority clamped into range |
| Lists.AddCount | evbase/evt.c:277-287 | prepending adds exactly one occurrence of the node; appending a node that was not on the list adds exactly one too; prepending a new node keeps the list free of duplicates |
| Lists.AddTailNew | evbase/evt.c:282-287 | appending a node that is not on the list gives the old list followed by that node |
| Lists.AddTailPresent | evbase/evt.c:282-287 | appending a node first met at index `i` leaves exactly the nodes up to and including index `i` |
| Lists.AddTailFacts | evbase/evt.c:282-287 | after the tail append the node is last and the list has no duplicates; it is `l + [x]` for a new node and `l[..i+1]` for a node at index `i` |
| Lists.Del | evbase/evt.c:289-297 | the walk returns `RemoveFirst(l, x)`: one node shorter when `x` is on the list, the same list when it is not |
| Lists.RemoveFirstAt | evbase/evt.c:289-297 | unlinking the first occurrence at index `i` leaves `l[..i] + l[i+1..]`, the other nodes in their order |
| Lists.RemoveFirstAbsent | evbase/evt.c:289-297 | unlinking a node that is not on the list changes nothing |
| Lists.RemoveFirstCount | evbase/evt.c:289-297 | unlinking removes exactly one occurrence, or none when there is none |
| Lists.RemoveFirstNoDup | evbase/evt.c:289-297 | on a list without duplicates, unlinking `x` removes exactly `x` and keeps the list duplicate-free |
| Lists.DelAfterAdd | evbase/evt.c:277-297 | unlinking right after prepending gives the old list back |
| Lists.DelAfterAddTail | evbase/evt.c:282-297 | unlinking right after appending a new node gives the old list back |
| Lists.AttachedAddTail | evbase/evt.c:240 | appending a started hook of the list's kind keeps the list well-formed, whether or not the hook was already on it |
| Lists.AttachedRemove | evbase/evt.c:252 | after unlinking, the watcher is off the list and the list stays well-formed whatever its record becomes |
| Lists.DedupFacts | evbase/evt.c:187-191 | the batch with each fd taken once holds exactly the fds of the batch, none twice |
| FdTable.TableOk | evbase/evt.c:141-219 | the table is well-formed: no change flag is ever set (line 192), and every fd's list holds started IO watchers registered on that fd, none twice |
| FdTable.Refreshed | evbase/evt.c:203-211 | the entry a flush leaves for a batched fd: the same list, the OR of its watchers' interest as mask, and the flag cleared |
| FdTable.MaskOf | evbase/evt.c:209-211 | every listed watcher's `event` bits are in the fd mask |
| FdTable.MaskOfLeast | evbase/evt.c:206-211 | the mask has no bit that no listed watcher asks for; it is the least mask covering them all |
| FdTable.MaskOfAdd | evbase/evt.c:162 | prepending a watcher ORs its `event` into the mask of the list |
| FdTable.FlushStep | evbase/evt.c:202-215 | one batched fd changes neither the table size nor any fd list |
| FdTable.Flush | evbase/evt.c:201-216 | the flush changes neither the table size nor any fd list |
| FdTable.FlushPrefix | evbase/evt.c:201-216 | flushing the first `i + 1` entries is flushing the first `i` and then entry `i` |
| FdTable.FlushRefreshes | evbase/evt.c:203-211 | afterwards a batched fd has `events` equal to the OR over its list and a clear flag; every other fd is untouched |
| FdTable.FlushReports | evbase/evt.c:213-215 | `poll_update(fd, old, new)` is made if and only if `fd` was batched, `old` is its mask before the flush, `new` is the OR over its list, and `old != new` |
| FdTable.FlushOncePerFd | evbase/evt.c:213-215 | every backend call of a flush is an update, and no fd is updated twice, however often it is batched |
| FdTable.FlushDedup | evbase/evt.c:192 | a batch with repeated fds flushes exactly like the batch of its fds taken once each, so the unset flag is harmless |
| FdTable.FlushSameBut | evbase/evt.c:209-211 | the flush reads the watchers' interest only: records that differ only in `pendpos` give the same flush |
| FdTable.TableOkPrepend | evbase/evt.c:151-162 | growing the table to index `fd` and prepending the started watcher keeps the table well-formed; fd `fd` gets the watcher at its head, every other entry is its old or a zeroed one |
| FdTable.TableOkDetach | evbase/evt.c:177 | unlinking a watcher from the list of its own fd takes it off that list and keeps the table well-formed, whatever its record becomes |
| FdTable.TableOkGrow | evbase/evt.c:151-152 | growing the table with zeroed entries keeps it well-formed |
| FdTable.TableOkInactive | evbase/evt.c:147 | no fd list holds a watcher that is not started |
| Pending.Consistent | evbase/evt.c:108-137 | the `pendpos` invariant: a watcher has `pendpos == k > 0` exactly when slot `k - 1` of its priority level holds it, every slot holding a real watcher is such a slot, and the sentinel has no callback and is never queued |
| Pending.Enqueue | evbase/evt.c:108-121 | after an append the watcher is queued, its other fields are kept, no other watcher's record changes, and every slot still names a watcher |
| Pending.EnqueueAll | evbase/evt.c:90-102 | appending a list keeps the number of levels and changes only `pendpos` tokens of records; its properties are `EnqueueAllFacts`, `EnqueueAllConcat` and `EnqueueAllFromIdle` |
| Pending.EnqueueLands | evbase/evt.c:112-120 | appending a queued watcher changes nothing, and appending twice is appending once; an unqueued watcher lands at index `old_cnt` of its level with `pendpos == old_cnt + 1`, that level grows by one and no other slot or level changes |
| Pending.EnqueueKeepsConsistent | evbase/evt.c:114-120 | an append keeps the `pendpos` invariant |
| Pending.EnqueueAllFacts | evbase/evt.c:90-92 | appending a whole list queues each of its watchers and leaves every other record as it was |
| Pending.Purged | evbase/evt.c:171-174 | the purge keeps every level's length and clears `w`'s `pendpos`; every other record and every other field of `w` is kept |
| Pending.PurgeRemoves | evbase/evt.c:171-174 | the purge keeps the invariant; `w`'s slot now holds the sentinel and every other slot keeps its content (no compaction) |
| Pending.FiredLevel | evbase/evt.c:128-134 | a drained level runs only callbacks of watchers on that level that have a callback |
| Pending.Fired | evbase/evt.c:127-136 | what a drain runs: only callbacks of known watchers that have one, level 0 first (`FiredSplit`), each queued watcher once (`FiredOnce`) |
| Pending.FiredLevelMember | evbase/evt.c:131-133 | a watcher runs in a level if and only if it has a slot there and a non-NULL callback |
| Pending.FiredLevelCount | evbase/evt.c:128-134 | a watcher with a callback runs as often as it has slots in the level |
| Pending.FiredLevelConcat | evbase/evt.c:128-133 | within a level, earlier slots run before later ones |
| Pending.FiredConcat | evbase/evt.c:127 | draining consecutive groups of levels runs the lower group first |
| Pending.FiredSplit | evbase/evt.c:127-136 | every callback of the levels below `i` runs before those of level `i`, which run before those above `i` |
| Pending.FiredOnce | evbase/evt.c:127-136 | under the invariant, a watcher with a callback runs exactly once in a drain if it is queued and never otherwise; the sentinel never runs |
| Pending.Drained | evbase/evt.c:128-134 | the records part way through a drain: the same watchers, with only the `pendpos` of consumed ones changed, to 0 |
| Pending.DrainedConsistent | evbase/evt.c:130-135 | empty levels with every `pendpos` cleared satisfy the invariant again |
| Pending.DrainedStep | evbase/evt.c:129-130 | consuming slot `j` of level `i` clears the `pendpos` of the watcher found there, and of no other watcher |
| Pending.LevelCount | evbase/evt.c:114-119 | under the invariant, a level holds a watcher once if the watcher is queued at that level, and never otherwise |
| Pending.LiveAppend | evbase/evt.c:115-119 | storing the watcher at slot `pending_cnt[pri]` and counting it is `Enqueue` on the counted slots, and keeps the invariant |
| Pending.QueuedAt | evbase/evt.c:172 | a queued watcher's slot `pendpos - 1` lies inside the counted part of its level, so the sentinel store is in bounds |
| Pending.LivePurge | evbase/evt.c:172-173 | writing the sentinel over the watcher's slot is `Purged` on the counted slots |
| Pending.StopQueued | evbase/evt.c:170-174 | `active = 0` and the purge of a queued watcher keep the invariant, and the storage step is `Purged` |
| Pending.StopIdle | evbase/evt.c:170-171 | for an unqueued watcher, `active = 0` purges nothing and keeps the invariant |
| Tick.AttachedQueueable | evbase/evt.c:90-91 | every hook on a well-formed list may be appended: it is a real watcher whose priority has a level (the assertion at line 112 holds) |
| Tick.Select | evbase/evt.c:114-119 | what appending a list to empty levels leaves at level `p`: only watchers of priority `p` (exactly those of the list, once each: `SelectFacts`) |
| Tick.Groups | evbase/evt.c:127-136 | what draining those levels runs: only callbacks of known watchers that have one, level by level |
| Tick.SelectFacts | evbase/evt.c:114-119 | appending a list to empty levels keeps at level `p` its watchers of priority `p`, each once |
| Tick.EnqueueAllConcat | evbase/evt.c:100-102 | appending `a` and then `b` is appending `a + b` |
| Tick.EnqueueAllFromIdle | evbase/evt.c:90-92 | appending a list to empty levels keeps the invariant, puts at each level `p` exactly `Select` of the list at `p` (its watchers of priority `p`, each once), and queues a watcher if and only if it is on the list |
| Tick.IdleSelectStep | evbase/evt.c:114-119 | appending the last entry of a list extends each level by it if it is new, and leaves the level alone if it is not |
| Tick.FiredGroups | evbase/evt.c:127-136 | draining those levels runs the list's callbacks grouped by level |
| Tick.GroupsSorted | evbase/evt.c:127-136 | callbacks run in priority order: each belongs to a level, and no higher level runs before a lower one |
| Tick.GroupsCount | evbase/evt.c:127-136 | a watcher with a callback runs exactly once if it is on the list with a priority that has a level, and never otherwise |
| Tick.TickTrace | evbase/evt.c:86-105 | one tick as a value: the drain after the before hooks, the flush's backend calls, then the drain after the dispatched watchers and after hooks; its properties are `TickSteps` and `TickFromIdle` |
| Tick.TickSteps | evbase/evt.c:90-104 | append befores, drain, flush, append dispatched and afters, drain: the effects are `TickTrace`; the flush sees the same masks as at the tick's start; the records end with every `pendpos` cleared |
| Tick.TickFromIdle | evbase/evt.c:90-104 | a tick from empty levels runs the before hooks by level, then makes the flush's backend updates, then runs the dispatched watchers and after hooks by level |
| Loop.LoopOk | evbase/evt.c:108-274 | the loop invariant on values: one level and count per priority, counts within storage, `Consistent` on the counted slots, every batched fd in the table, `TableOk`, and both hook lists `Attached` |
| Loop.Unqueue | evbase/evt.c:170-174 | the start of each stop function: `active = 0`; a queued watcher's slot gets the sentinel and its `pendpos` becomes 0; counts and other slots stay; the invariant holds and the result is `Purged` |
| Loop.DetachOk | evbase/evt.c:177 | after the purge, unlinking the watcher from the one list of its kind keeps the loop invariant and takes it off every list |
| Loop.DetachBeforeOk | evbase/evt.c:252 | the same for a before hook unlinked from the before list |
| Loop.DetachAfterOk | evbase/evt.c:273 | the same for an after hook unlinked from the after list |
| Loop.IoStopStep | evbase/evt.c:168-181 | `evt_io_stop` on values: purge, unlink from `fds[fd]`, and `fd` appended to the batch, keeping the loop invariant |
| Loop.Mark | evbase/evt.c:187-193 | a flagged fd leaves the batch alone; an unflagged one is appended after the old entries and the count grows by one |
| Loop.BatchOk | evbase/evt.c:190-191 | appending an fd that has a table entry to the batch keeps the loop invariant |
| Loop.AppendOk | evbase/evt.c:114-120 | storing the watcher in the next slot of its level and counting it keeps the loop invariant, is `Enqueue`, and changes only that slot and that count |
| Loop.DrainOk | evbase/evt.c:135 | resetting every count and clearing every `pendpos` keeps the loop invariant and empties every level |
| Loop.ConsumeSlot | evbase/evt.c:129-133 | one slot: its watcher's `pendpos` becomes 0, and its callback, if any, is then invoked on the record with `pendpos` already 0 |
| Loop.DrainLevel | evbase/evt.c:128-134 | the slot loop clears the `pendpos` of each consumed watcher and no other, runs exactly `FiredLevel` of the level, and invokes every callback on its watcher's record with `pendpos` 0 |
| Loop.DrainNext | evbase/evt.c:128-135 | draining the next level extends the run callbacks by that level's `FiredLevel` and clears its watchers' `pendpos` |
| Loop.Drain | evbase/evt.c:127-136 | the level loop leaves every count 0 and every `pendpos` cleared, runs exactly `Fired` of the levels, and invokes every callback on its watcher's record with `pendpos` 0 |
| Loop.FlushOne | evbase/evt.c:202-215 | one batch entry is `FlushStep`: the list's mask stored with the flag cleared, an update reported when it changed, and the table kept well-formed |
| Loop.FlushBatch | evbase/evt.c:201-216 | the batch loop produces exactly `Flush`'s table and backend calls, and keeps the table well-formed |
| Loop.ListMask | evbase/evt.c:209-211 | the list walk computes `MaskOf` of the fd's list |
| Loop.IoStartOk | evbase/evt.c:147-165 | activation with the clamp, growth, prepend and batching keep the loop invariant; the fd is appended to the batch |
| Loop.DispatchedQueueable | evbase/evt.c:97 | what the backend dispatches from fd lists may be appended |
| Loop.ActivateOk | evbase/evt.c:236-240 | activating a timer or hook with its priority clamped, and appending a hook to its list, keeps the loop invariant |
| Loop.EvtLoop.Valid | evbase/evt.c:108-274 | `LoopOk` of the object's fields; every method of the loop keeps it |
| Loop.EvtLoop.Init | evbase/evt.c:14-63 | the initial loop: one priority level with no used slot, a zeroed table, an empty batch, empty hook lists and the sentinel with no callback; the invariant holds |
| Loop.EvtLoop.AppendPending | evbase/evt.c:108-121 | the new state is `Enqueue` of the old one: a queued watcher leaves everything alone; an unqueued one is stored at slot `old_cnt` of its level, with `pendpos` the new count and the slots below kept |
| Loop.EvtLoop.AppendList | evbase/evt.c:90-92 | walking a list and appending each watcher is `EnqueueAll` of the list |
| Loop.EvtLoop.ExecutePending | evbase/evt.c:123-137 | the log grows by exactly `Fired` of the old levels; every `pendpos` is cleared and every count is 0; the storage, table and hooks are untouched |
| Loop.EvtLoop.FdChange | evbase/evt.c:183-194 | `fd` is appended after the earlier batch entries and the count grows by exactly one; nothing else changes |
| Loop.EvtLoop.FdChangesUpdate | evbase/evt.c:196-219 | the table becomes `Flush`'s table, the log grows by exactly its backend calls, and the batch is emptied |
| Loop.EvtLoop.IoStart | evbase/evt.c:141-166 | active, priority clamped, table size at least `fd + 1` with new entries zeroed, the watcher at the head of `fds[fd]` with the old list after it, and `fd` appended to the batch |
| Loop.EvtLoop.IoStop | evbase/evt.c:168-181 | inactive and purged, counts unchanged, unlinked from `fds[fd]` and off that list, and `fd` appended to the batch |
| Loop.EvtLoop.TimerStart | evbase/evt.c:222-227 | only `active = 1` and the priority clamp; nothing else changes |
| Loop.EvtLoop.BeforeStart | evbase/evt.c:234-241 | active, priority clamped, and the before list becomes `AddTail` of the old one |
| Loop.EvtLoop.BeforeStop | evbase/evt.c:243-253 | inactive and purged, counts unchanged, and unlinked from the before list and off it |
| Loop.EvtLoop.AfterStart | evbase/evt.c:255-262 | active, priority clamped, and the after list becomes `AddTail` of the old one |
| Loop.EvtLoop.AfterStop | evbase/evt.c:264-274 | inactive and purged, counts unchanged, and unlinked from the after list and off it |
| Loop.EvtLoop.RunOnce | evbase/evt.c:86-105 | one iteration: the log grows by exactly `TickTrace`; the table is flushed and the batch emptied; every level is empty and every `pendpos` cleared; the hook lists are unchanged |

## Left out

- The backend is not modelled.
  - `epoll_init` is left out.
  - `poll_dispatch` becomes the `ready` parameter of `RunOnce`: the IO watchers, each on its fd's list, that the dispatch appends.
  - `poll_update` becomes an entry of the ghost `log`.
- Callbacks are opaque: a callback run is a `Fire` entry of the log.
  - Callbacks that start or stop watchers during a drain (re-entrancy) are not modelled.
- `evt_loop_run`'s `while (1)` never ends. Only one iteration (`RunOnce`) is modelled.
- The lifecycle stubs are not modelled.
  - `evt_loop_quit` and `evt_loop_destroy` have empty bodies.
  - `evt_loop_init` only calls `evt_loop_init_with_flag(0)`.
- Timers: no timer heap exists in evt.c.
  - `evt_timer_start` is modelled as its clamp and `active = 1`.
  - `evt_timer_stop` has an empty body and is not modelled.
  - The timer-heap allocation in init (wrongly sized) is left out.
- Loop.EvtLoop.Init: models only the success path of `evt_loop_init_with_flag`.
  - The failure path (`goto loop_init_failed`, which leaks) is not modelled.
  - Neither are `owner_thread`, `status` and `poll_time_us`.
  - The initial sizes are parameters, because their constants are not in evt.c.
  - The memory from `mm_malloc` is taken to be zeroed.
- Allocation and logging are left out: `mm_malloc`, `memset`, `log_error` and `log_debug`.
- Growth: `check_and_expand_array` (`multi_two`, `add_one`) is not part of this file.
  - Watchers.Reserve: promises only "at least the needed size, old contents kept, new cells filled". It does not promise exact doubling or adding one.
- Loop.EvtLoop.Watch: stands in for the caller initialising a watcher of its own, which evt.c does not do. It has no source row.
- Loop.EvtLoop.IoStart: requires the watcher not to be started.
  - Prepending a node already on an fd list makes the list cyclic.
  - If the watcher is its fd's head, `w->next` becomes `w` itself. The next `evt_fd_changes_update` then walks that list at line 209 forever.
  - A sequence of ids cannot represent that.
- Loop.EvtLoop.AppendPending: requires `0 <= priority`.
  - The source asserts only `pri <= priority_max`.
  - A negative priority would index `pending[-1]`.
- Loop.EvtLoop.IoStop: requires `fd` to have a table entry. The source indexes `loop->fds[ev->fd]` unchecked.
- The methods taking a watcher require it not to be the loop's own sentinel, and require it to be a watcher the loop knows.
- Lists.AddTail and Lists.RemoveFirst are functions over the id sequence.
  - The walk of `evt_list_del` over next-field addresses is the loop of `Lists.Del`, proved equal to `RemoveFirst`.
  - The stop methods use `RemoveFirst` directly.
  - The walk of `evt_list_add_tail` is not written as a loop; `AddTail` is its outcome.
- Integer widths are not modelled.
  - `priority` is an unbounded integer, and `pendpos` and `fd` are naturals.
  - Negative fds are not modelled.
  - Interest masks are 8-bit values, like the `uint8_t` that keeps the old mask in the flush.
- Several helpers only factor the source's inlined code into steps: `Unqueue`, `IoStopStep`, `Mark`, the `…Ok` lemmas, `FlushBatch`, `ListMask` and the loop-body methods `ConsumeSlot`, `DrainNext` and `FlushOne`. They have no counterpart of their own in evt.c.
