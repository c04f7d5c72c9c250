/**
  The loop object (`struct evt_loop`) and the functions of evbase/evt.c that change it in
  place. Watchers are caller-owned records reached by id through `watchers`; the backend
  calls and the callbacks the loop makes are appended to the ghost `log`.
*/
module Loop {
  import opened Watchers
  import opened Lists
  import opened Pending
  import opened FdTable
  import opened Tick

  /** Changing only `pendpos` tokens keeps the fd table and both hook lists well-formed. */
  lemma ListsSameBut(fds: seq<FdInfo>, befores: seq<Id>, afters: seq<Id>,
                     ws: map<Id, Watcher>, ws': map<Id, Watcher>, pmax: nat)
    requires TableOk(fds, ws, pmax)
    requires Attached(befores, ws, Before, pmax) && Attached(afters, ws, After, pmax)
    requires SameBut(ws, ws')
    ensures TableOk(fds, ws', pmax)
    ensures Attached(befores, ws', Before, pmax) && Attached(afters, ws', After, pmax)
  {
    TableOkSameBut(fds, ws, ws', pmax);
    AttachedSameBut(befores, ws, ws', Before, pmax);
    AttachedSameBut(afters, ws, ws', After, pmax);
  }

  ghost predicate LoopOk(pmax: nat, pending: seq<seq<Id>>, cnt: seq<nat>, fds: seq<FdInfo>,
                        fdsMod: seq<nat>, fdsModCnt: nat, befores: seq<Id>, afters: seq<Id>, ws: map<Id, Watcher>)
  {
    && |pending| == pmax + 1 && |cnt| == pmax + 1
    && (forall i :: 0 <= i <= pmax ==> cnt[i] <= |pending[i]|)
    && fdsModCnt <= |fdsMod|
    && Consistent(Live(pending, cnt), ws)
    && InTable(fdsMod[..fdsModCnt], |fds|)
    && TableOk(fds, ws, pmax)
    && Attached(befores, ws, Before, pmax)
    && Attached(afters, ws, After, pmax)
  }

  /**
    `pending'` and `cnt'` are `pending` and `cnt` with `w` stored in slot `cnt[p]` of level
    `p` and that level counted one more; the slots below are kept and no other level changes.
  */
  ghost predicate SlotStored(pending: seq<seq<Id>>, cnt: seq<nat>, pending': seq<seq<Id>>, cnt': seq<nat>, p: nat, w: Id)
  {
    && p < |pending| && p < |cnt| && cnt[p] <= |pending[p]| && p < |pending'|
    && pending' == pending[p := pending'[p]]
    && cnt' == cnt[p := cnt[p] + 1]
    && cnt[p] < |pending'[p]| && pending'[p][cnt[p]] == w
    && pending'[p][..cnt[p]] == pending[p][..cnt[p]]
  }

  /** `pending'` is `pending` with the sentinel written over slot `k - 1` of level `p`, which exists. */
  ghost predicate SlotCleared(pending: seq<seq<Id>>, pending': seq<seq<Id>>, p: int, k: nat)
  {
    && 0 <= p < |pending| && 0 < k <= |pending[p]| && p < |pending'|
    && pending' == pending[p := pending'[p]] && pending'[p] == pending[p][k - 1 := EmptyEv]
  }

  /**
    The common start of the three stop functions on the pending storage: `active = 0`, and
    a queued watcher's slot gets the sentinel while its `pendpos` is cleared. This is
    `Purged` on the live view and keeps the bookkeeping consistent; counts and other slots stay.
  */
  method Unqueue(pmax: nat, pending: seq<seq<Id>>, cnt: seq<nat>, ws: map<Id, Watcher>, w: Id)
    returns (pending': seq<seq<Id>>, ws': map<Id, Watcher>)
    requires |pending| == pmax + 1 && |cnt| == pmax + 1 && forall i :: 0 <= i <= pmax ==> cnt[i] <= |pending[i]|
    requires Consistent(Live(pending, cnt), ws) && w in ws && w != EmptyEv
    ensures ws' == ws[w := ws[w].(active := false, pendpos := 0)]
    ensures ws[w].pendpos == 0 ==> pending' == pending
    ensures ws[w].pendpos > 0 ==> SlotCleared(pending, pending', ws[w].priority, ws[w].pendpos)
    ensures |pending'| == pmax + 1 && forall i :: 0 <= i <= pmax ==> cnt[i] <= |pending'[i]|
    ensures Consistent(Live(pending', cnt), ws')
    ensures Live(pending', cnt) == Purged(Pend(Live(pending, cnt), ws), w).queues
  {
    var ev := ws[w].(active := false);
    pending' := pending;
    if ev.pendpos != 0 {
      QueuedAt(pending, cnt, ws, w);
      var p, k := ev.priority, ev.pendpos;
      var slot: seq<Id> := pending[p][k - 1 := EmptyEv];
      StopQueued(pending, cnt, ws, w, p, k, slot);
      pending' := pending[p := slot];
      ev := ev.(pendpos := 0);
    } else {
      StopIdle(pending, cnt, ws, w);
    }
    ws' := ws[w := ev];
  }

  /**
    After a stop function's deactivation (`pending'` and `ws'` purged and consistent),
    unlinking the watcher from the one list of its kind keeps the loop invariant.
  */
  lemma DetachOk(pmax: nat, pending: seq<seq<Id>>, cnt: seq<nat>, fds: seq<FdInfo>,
                 fdsMod: seq<nat>, fdsModCnt: nat, befores: seq<Id>, afters: seq<Id>, ws: map<Id, Watcher>,
                 w: Id, pending': seq<seq<Id>>, ws': map<Id, Watcher>,
                 fds': seq<FdInfo>, befores': seq<Id>, afters': seq<Id>)
    requires LoopOk(pmax, pending, cnt, fds, fdsMod, fdsModCnt, befores, afters, ws)
    requires w in ws && w != EmptyEv && ws[w].kind != Timer
    requires ws' == ws[w := ws[w].(active := false, pendpos := 0)]
    requires |pending'| == pmax + 1 && forall i :: 0 <= i <= pmax ==> cnt[i] <= |pending'[i]|
    requires Consistent(Live(pending', cnt), ws')
    requires fds' == if ws[w].kind == Io && ws[w].fd < |fds| then
      fds[ws[w].fd := fds[ws[w].fd].(head := RemoveFirst(fds[ws[w].fd].head, w))] else fds
    requires befores' == if ws[w].kind == Before then RemoveFirst(befores, w) else befores
    requires afters' == if ws[w].kind == After then RemoveFirst(afters, w) else afters
    ensures LoopOk(pmax, pending', cnt, fds', fdsMod, fdsModCnt, befores', afters', ws')
    ensures ws[w].kind == Io && ws[w].fd < |fds| ==> w !in fds'[ws[w].fd].head
    ensures w !in befores' && w !in afters'
  {
    var v := ws'[w];
    if ws[w].kind == Io && ws[w].fd < |fds| {
      TableOkDetach(fds, ws, pmax, w, v, ws[w].fd);
    } else {
      forall f | 0 <= f < |fds| ensures w !in fds[f].head {
        assert Attached(fds[f].head, ws, Io, pmax);
      }
      TableOkOther(fds, ws, pmax, w, v);
    }
    if ws[w].kind == Before {
      AttachedRemove(befores, ws, Before, pmax, w, v);
    } else {
      assert w !in befores;
      AttachedOther(befores, ws, Before, pmax, w, v);
    }
    if ws[w].kind == After {
      AttachedRemove(afters, ws, After, pmax, w, v);
    } else {
      assert w !in afters;
      AttachedOther(afters, ws, After, pmax, w, v);
    }
  }

  /**
    `evt_io_stop` on the loop's values: the deactivation and purge, the watcher unlinked
    from its fd's list, and the fd batched. The loop invariant is kept.
  */
  method IoStopStep(pmax: nat, pending: seq<seq<Id>>, cnt: seq<nat>, fds: seq<FdInfo>,
                    fdsMod: seq<nat>, fdsModCnt: nat, befores: seq<Id>, afters: seq<Id>, ws: map<Id, Watcher>, w: Id)
    returns (pending': seq<seq<Id>>, ws': map<Id, Watcher>, fds': seq<FdInfo>, fdsMod': seq<nat>, fdsModCnt': nat)
    requires LoopOk(pmax, pending, cnt, fds, fdsMod, fdsModCnt, befores, afters, ws)
    requires w in ws && w != EmptyEv && ws[w].kind == Io && ws[w].fd < |fds|
    ensures LoopOk(pmax, pending', cnt, fds', fdsMod', fdsModCnt', befores, afters, ws')
    ensures ws' == ws[w := ws[w].(active := false, pendpos := 0)]
    ensures Live(pending', cnt) == Purged(Pend(Live(pending, cnt), ws), w).queues
    ensures fds' == fds[ws[w].fd := fds[ws[w].fd].(head := RemoveFirst(fds[ws[w].fd].head, w))]
    ensures w !in fds'[ws[w].fd].head
    ensures fdsMod'[..fdsModCnt'] == fdsMod[..fdsModCnt] + [ws[w].fd]
  {
    var fd := ws[w].fd;
    pending', ws' := Unqueue(pmax, pending, cnt, ws, w);
    fds' := fds[fd := fds[fd].(head := RemoveFirst(fds[fd].head, w))];
    DetachOk(pmax, pending, cnt, fds, fdsMod, fdsModCnt, befores, afters, ws, w, pending', ws', fds', befores, afters);
    fdsMod', fdsModCnt' := Mark(fds', fdsMod, fdsModCnt, fd).0, Mark(fds', fdsMod, fdsModCnt, fd).1;
    BatchOk(pmax, pending', cnt, fds', fdsMod, fdsModCnt, befores, afters, ws', fd, fdsMod', fdsModCnt');
  }

  /** `DetachOk` for a before watcher, unlinked from the before list. */
  lemma DetachBeforeOk(pmax: nat, pending: seq<seq<Id>>, cnt: seq<nat>, fds: seq<FdInfo>,
                       fdsMod: seq<nat>, fdsModCnt: nat, befores: seq<Id>, afters: seq<Id>, ws: map<Id, Watcher>,
                       w: Id, pending': seq<seq<Id>>, ws': map<Id, Watcher>, befores': seq<Id>)
    requires LoopOk(pmax, pending, cnt, fds, fdsMod, fdsModCnt, befores, afters, ws)
    requires w in ws && w != EmptyEv && ws[w].kind == Before
    requires ws' == ws[w := ws[w].(active := false, pendpos := 0)]
    requires |pending'| == pmax + 1 && forall i :: 0 <= i <= pmax ==> cnt[i] <= |pending'[i]|
    requires Consistent(Live(pending', cnt), ws')
    requires befores' == RemoveFirst(befores, w)
    ensures LoopOk(pmax, pending', cnt, fds, fdsMod, fdsModCnt, befores', afters, ws')
    ensures w !in befores'
  {
    DetachOk(pmax, pending, cnt, fds, fdsMod, fdsModCnt, befores, afters, ws, w, pending', ws', fds, befores', afters);
  }

  /** `DetachOk` for an after watcher, unlinked from the after list. */
  lemma DetachAfterOk(pmax: nat, pending: seq<seq<Id>>, cnt: seq<nat>, fds: seq<FdInfo>,
                       fdsMod: seq<nat>, fdsModCnt: nat, befores: seq<Id>, afters: seq<Id>, ws: map<Id, Watcher>,
                       w: Id, pending': seq<seq<Id>>, ws': map<Id, Watcher>, afters': seq<Id>)
    requires LoopOk(pmax, pending, cnt, fds, fdsMod, fdsModCnt, befores, afters, ws)
    requires w in ws && w != EmptyEv && ws[w].kind == After
    requires ws' == ws[w := ws[w].(active := false, pendpos := 0)]
    requires |pending'| == pmax + 1 && forall i :: 0 <= i <= pmax ==> cnt[i] <= |pending'[i]|
    requires Consistent(Live(pending', cnt), ws')
    requires afters' == RemoveFirst(afters, w)
    ensures LoopOk(pmax, pending', cnt, fds, fdsMod, fdsModCnt, befores, afters', ws')
    ensures w !in afters'
  {
    DetachOk(pmax, pending, cnt, fds, fdsMod, fdsModCnt, befores, afters, ws, w, pending', ws', fds, befores, afters');
  }

  /**
    The body of `evt_fd_change` on values: an fd whose flag is clear is appended to the
    batch, growing `fds_mod` when it is full; a flagged fd leaves the batch as it is.
  */
  function Mark(fds: seq<FdInfo>, fdsMod: seq<nat>, fdsModCnt: nat, fd: nat): (r: (seq<nat>, nat))
    requires fd < |fds| && fdsModCnt <= |fdsMod|
    ensures r.1 <= |r.0| && |r.0| >= |fdsMod|
    ensures fds[fd].changeFlag ==> r == (fdsMod, fdsModCnt)
    ensures !fds[fd].changeFlag ==> r.1 == fdsModCnt + 1 && r.0[..r.1] == fdsMod[..fdsModCnt] + [fd]
  {
    if fds[fd].changeFlag then (fdsMod, fdsModCnt)
    else
      var grown := Reserve(fdsMod, fdsModCnt + 1, 0);
      assert grown[..fdsModCnt] == fdsMod[..fdsModCnt] by {
        assert grown[..|fdsMod|] == fdsMod;
      }
      var m := grown[fdsModCnt := fd];
      assert m[..fdsModCnt + 1] == grown[..fdsModCnt] + [fd];
      (m, fdsModCnt + 1)
  }

  /** Appending an fd that has a table entry to the batch keeps the loop invariant. */
  lemma BatchOk(pmax: nat, pending: seq<seq<Id>>, cnt: seq<nat>, fds: seq<FdInfo>,
                fdsMod: seq<nat>, fdsModCnt: nat, befores: seq<Id>, afters: seq<Id>, ws: map<Id, Watcher>,
                fd: nat, fdsMod': seq<nat>, fdsModCnt': nat)
    requires LoopOk(pmax, pending, cnt, fds, fdsMod, fdsModCnt, befores, afters, ws)
    requires fd < |fds| && fdsModCnt' <= |fdsMod'| && fdsMod'[..fdsModCnt'] == fdsMod[..fdsModCnt] + [fd]
    ensures LoopOk(pmax, pending, cnt, fds, fdsMod', fdsModCnt', befores, afters, ws)
  {
    var b := fdsMod[..fdsModCnt] + [fd];
    assert forall k :: 0 <= k < |b| ==> b[k] < |fds| by {
      forall k | 0 <= k < |b| ensures b[k] < |fds| {
        if k < fdsModCnt { assert b[k] == fdsMod[..fdsModCnt][k]; }
      }
    }
  }

  /** Storing `w` in the next slot of its level and counting it keeps the loop invariant and is `Enqueue`. */
  lemma AppendOk(pmax: nat, pending: seq<seq<Id>>, cnt: seq<nat>, fds: seq<FdInfo>,
                 fdsMod: seq<nat>, fdsModCnt: nat, befores: seq<Id>, afters: seq<Id>, ws: map<Id, Watcher>,
                 w: Id, p: nat, grown: seq<Id>, slots: seq<Id>, cnt': seq<nat>, ws': map<Id, Watcher>)
    requires LoopOk(pmax, pending, cnt, fds, fdsMod, fdsModCnt, befores, afters, ws)
    requires w in ws && ws[w].pendpos == 0 && w != EmptyEv && p == ws[w].priority && p <= pmax
    requires cnt[p] < |grown| && |pending[p]| <= |grown| && grown[..|pending[p]|] == pending[p]
    requires slots == grown[cnt[p] := w] && cnt' == cnt[p := cnt[p] + 1]
    requires ws' == ws[w := ws[w].(pendpos := cnt[p] + 1)]
    ensures LoopOk(pmax, pending[p := slots], cnt', fds, fdsMod, fdsModCnt, befores, afters, ws')
    ensures Pend(Live(pending[p := slots], cnt'), ws') == Enqueue(Pend(Live(pending, cnt), ws), w)
    ensures SlotStored(pending, cnt, pending[p := slots], cnt', p, w)
  {
    assert slots[..cnt[p]] == pending[p][..cnt[p]] by {
      assert grown[..cnt[p]] == grown[..|pending[p]|][..cnt[p]];
    }
    LiveAppend(pending, cnt, ws, w, slots);
    SameButPendpos(ws, w, cnt[p] + 1);
    ListsSameBut(fds, befores, afters, ws, ws', pmax);
  }

  /** A full drain, every count reset and every `pendpos` cleared, keeps the loop invariant. */
  lemma DrainOk(pmax: nat, pending: seq<seq<Id>>, cnt: seq<nat>, fds: seq<FdInfo>,
                fdsMod: seq<nat>, fdsModCnt: nat, befores: seq<Id>, afters: seq<Id>, ws: map<Id, Watcher>)
    requires LoopOk(pmax, pending, cnt, fds, fdsMod, fdsModCnt, befores, afters, ws)
    ensures LoopOk(pmax, pending, seq(pmax + 1, _ => 0), fds, fdsMod, fdsModCnt, befores, afters, ZeroPendpos(ws))
    ensures Live(pending, seq(pmax + 1, _ => 0)) == Empties(pmax + 1)
  {
    DrainedConsistent(ws, pmax + 1);
    ListsSameBut(fds, befores, afters, ws, ZeroPendpos(ws), pmax);
  }

  /**
    `seen[k]` is the record the callback `fired[k]` is invoked with: the watcher's record
    from `ws` with `pendpos` already 0.
  */
  ghost predicate InvokedCleared(fired: seq<Effect>, seen: seq<Watcher>, ws: map<Id, Watcher>)
  {
    && |seen| == |fired|
    && forall k :: 0 <= k < |seen| ==>
         fired[k].Fire? && fired[k].id in ws && seen[k] == ws[fired[k].id].(pendpos := 0)
  }

  lemma InvokedClearedConcat(fired: seq<Effect>, seen: seq<Watcher>, fired': seq<Effect>, seen': seq<Watcher>,
                             ws: map<Id, Watcher>)
    requires InvokedCleared(fired, seen, ws) && InvokedCleared(fired', seen', ws)
    ensures InvokedCleared(fired + fired', seen + seen', ws)
  {
    forall k | 0 <= k < |seen + seen'|
      ensures (fired + fired')[k].Fire? && (fired + fired')[k].id in ws
      ensures (seen + seen')[k] == ws[(fired + fired')[k].id].(pendpos := 0)
    {
      if k >= |seen| {
        assert (fired + fired')[k] == fired'[k - |seen|] && (seen + seen')[k] == seen'[k - |seen|];
      }
    }
  }

  /**
    One slot of the inner loop of `evt_execute_pending`: the watcher `ev` found in slot
    `j` of level `i` gets `pendpos` 0, and then its callback runs if it has one.
  */
  method ConsumeSlot(ghost qs: Queues, ghost ws0: map<Id, Watcher>, i: nat, j: nat, ev: Id,
                     r: map<Id, Watcher>, ghost fired: seq<Effect>, ghost seen: seq<Watcher>)
    returns (r': map<Id, Watcher>, ghost fired': seq<Effect>, ghost seen': seq<Watcher>)
    requires Consistent(qs, ws0) && i < |qs| && j < |qs[i]| && ev == qs[i][j]
    requires r == Drained(ws0, i, j) && fired == FiredLevel(qs[i][..j], ws0)
    requires InvokedCleared(fired, seen, ws0)
    ensures r' == Drained(ws0, i, j + 1) && fired' == FiredLevel(qs[i][..j + 1], ws0)
    ensures InvokedCleared(fired', seen', ws0)
  {
    DrainedStep(qs, ws0, i, j);
    FiredLevelPrefix(qs[i], ws0, j);
    r' := r[ev := r[ev].(pendpos := 0)];
    assert r'[ev] == ws0[ev].(pendpos := 0);
    fired', seen' := fired, seen;
    if r'[ev].hasCb {
      InvokedClearedConcat(fired, seen, [Fire(ev)], [r'[ev]], ws0);
      fired', seen' := fired + [Fire(ev)], seen + [r'[ev]];
    }
  }

  /**
    The inner loop of `evt_execute_pending` over level `i`: slots `0 .. n - 1` in index
    order, where `n` is the level's count; each slot's watcher gets `pendpos` 0 and then
    its callback runs if it has one. Consumed watchers keep their records otherwise.
    `seen[k]` is the record the `k`-th callback is invoked with: its `pendpos` is
    already 0.
  */
  method DrainLevel(ghost qs: Queues, ghost ws0: map<Id, Watcher>, i: nat, slots: seq<Id>, n: nat,
                    ws: map<Id, Watcher>) returns (r: map<Id, Watcher>, ghost fired: seq<Effect>, ghost seen: seq<Watcher>)
    requires Consistent(qs, ws0) && i < |qs| && n == |qs[i]| <= |slots| && slots[..n] == qs[i]
    requires ws == Drained(ws0, i, 0)
    ensures r == Drained(ws0, i + 1, 0)
    ensures fired == FiredLevel(qs[i], ws0)
    ensures InvokedCleared(fired, seen, ws0)
  {
    r, fired, seen := ws, [], [];
    var j := 0;
    while j < n
      invariant 0 <= j <= n
      invariant r == Drained(ws0, i, j)
      invariant fired == FiredLevel(qs[i][..j], ws0)
      invariant InvokedCleared(fired, seen, ws0)
    {
      assert slots[j] == qs[i][j];
      r, fired, seen := ConsumeSlot(qs, ws0, i, j, slots[j], r, fired, seen);
      j := j + 1;
    }
    assert qs[i][..j] == qs[i];
    DrainedNextLevel(qs, ws0, i);
  }

  /**
    What `evt_io_start` does before its `evt_fd_change` keeps the loop invariant: the
    activation with the clamp, the table grown with zeroed entries, and the prepend.
  */
  lemma IoStartOk(pmax: nat, pending: seq<seq<Id>>, cnt: seq<nat>, fds: seq<FdInfo>,
                  fdsMod: seq<nat>, fdsModCnt: nat, befores: seq<Id>, afters: seq<Id>, ws: map<Id, Watcher>, w: Id,
                  v: Watcher, fds': seq<FdInfo>, fdsMod': seq<nat>, fdsModCnt': nat)
    requires LoopOk(pmax, pending, cnt, fds, fdsMod, fdsModCnt, befores, afters, ws)
    requires w in ws && w != EmptyEv && ws[w].kind == Io && !ws[w].active
    requires v == ws[w].(active := true, priority := Clamp(ws[w].priority, 0, pmax))
    requires fds' == Reserve(fds, v.fd + 1, ZERO_FD)[v.fd := Reserve(fds, v.fd + 1, ZERO_FD)[v.fd].(head := Add(Reserve(fds, v.fd + 1, ZERO_FD)[v.fd].head, w))]
    requires fdsModCnt' <= |fdsMod'|
    requires fds'[v.fd].changeFlag ==> fdsMod' == fdsMod && fdsModCnt' == fdsModCnt
    requires !fds'[v.fd].changeFlag ==> fdsMod'[..fdsModCnt'] == fdsMod[..fdsModCnt] + [v.fd]
    ensures LoopOk(pmax, pending, cnt, fds', fdsMod', fdsModCnt', befores, afters, ws[w := v])
    ensures fdsMod'[..fdsModCnt'] == fdsMod[..fdsModCnt] + [v.fd]
    ensures |fds'| >= v.fd + 1 && |fds'| >= |fds|
    ensures fds'[v.fd] == EntryOf(fds, v.fd).(head := Add(EntryOf(fds, v.fd).head, w))
    ensures forall f :: 0 <= f < |fds'| && f != v.fd ==> fds'[f] == EntryOf(fds, f)
  {
    var qs := Live(pending, cnt);
    if ws[w].pendpos > 0 {
      assert InSlot(qs, w, ws[w].priority, ws[w].pendpos);
    }
    ConsistentUpdate(qs, ws, w, v);
    AttachedOther(befores, ws, Before, pmax, w, v);
    AttachedOther(afters, ws, After, pmax, w, v);
    TableOkPrepend(fds, ws, pmax, w, v);
    BatchOk(pmax, pending, cnt, fds', fdsMod, fdsModCnt, befores, afters, ws[w := v], v.fd, fdsMod', fdsModCnt');
  }

  /** One level of the outer loop of `evt_execute_pending`, the levels below it already drained. */
  method DrainNext(ghost qs: Queues, ghost ws: map<Id, Watcher>, i: nat, slots: seq<Id>, n: nat,
                   r: map<Id, Watcher>, ghost fired: seq<Effect>, ghost seen: seq<Watcher>)
    returns (r': map<Id, Watcher>, ghost fired': seq<Effect>, ghost seen': seq<Watcher>)
    requires Consistent(qs, ws) && i < |qs| && n == |qs[i]| <= |slots| && slots[..n] == qs[i]
    requires r == Drained(ws, i, 0) && Known(qs[..i], ws) && fired == Fired(qs[..i], ws)
    requires InvokedCleared(fired, seen, ws)
    ensures r' == Drained(ws, i + 1, 0) && Known(qs[..i + 1], ws) && fired' == Fired(qs[..i + 1], ws)
    ensures InvokedCleared(fired', seen', ws)
  {
    ghost var level, looked;
    r', level, looked := DrainLevel(qs, ws, i, slots, n, r);
    FiredPrefix(qs, ws, i);
    InvokedClearedConcat(fired, seen, level, looked, ws);
    fired', seen' := fired + level, seen + looked;
  }

  /**
    The loop of `evt_execute_pending` on the storage: levels `0 .. |cnt| - 1` in order,
    each drained slot by slot and its count then reset to 0.
  */
  method Drain(store: seq<seq<Id>>, cnt: seq<nat>, ws: map<Id, Watcher>)
    returns (cnt': seq<nat>, r: map<Id, Watcher>, ghost fired: seq<Effect>, ghost seen: seq<Watcher>)
    requires |store| == |cnt| && forall i :: 0 <= i < |cnt| ==> cnt[i] <= |store[i]|
    requires Consistent(Live(store, cnt), ws)
    ensures cnt' == seq(|cnt|, _ => 0)
    ensures r == ZeroPendpos(ws)
    ensures fired == Fired(Live(store, cnt), ws)
    ensures InvokedCleared(fired, seen, ws)
  {
    ghost var qs := Live(store, cnt);
    cnt', r, fired, seen := cnt, ws, [], [];
    DrainedStart(ws);
    var i := 0;
    while i < |cnt|
      invariant 0 <= i <= |cnt| == |cnt'| == |qs|
      invariant forall k :: 0 <= k < i ==> cnt'[k] == 0
      invariant forall k :: i <= k < |cnt| ==> cnt'[k] == cnt[k]
      invariant r == Drained(ws, i, 0)
      invariant Known(qs[..i], ws) && fired == Fired(qs[..i], ws)
      invariant InvokedCleared(fired, seen, ws)
    {
      r, fired, seen := DrainNext(qs, ws, i, store[i], cnt'[i], r, fired, seen);
      cnt' := cnt'[i := 0];
      i := i + 1;
    }
    DrainedAll(qs, ws);
    assert qs[..i] == qs;
  }

  /**
    The body of the batch loop for one fd: keep the old mask, walk the list for the new
    one, store it with the flag cleared, and report a `poll_update` when the two differ.
  */
  method FlushOne(table: seq<FdInfo>, ghost updates: seq<Effect>, fd: nat, ws: map<Id, Watcher>, ghost pmax: nat)
    returns (table': seq<FdInfo>, ghost updates': seq<Effect>)
    requires fd < |table| && TableOk(table, ws, pmax)
    ensures TableOk(table', ws, pmax)
    ensures forall j :: 0 <= j < |table[fd].head| ==> table[fd].head[j] in ws
    ensures Flushed(table', updates') == FlushStep(Flushed(table, updates), fd, ws)
  {
    TableOkHeadsKnown(table, ws, pmax);
    var oevt := table[fd].events;
    var head := table[fd].head;
    var m := ListMask(head, ws);
    TableOkRefresh(table, ws, pmax, fd, m);
    table' := table[fd := FdInfo(head, m, false)];
    updates' := updates;
    if oevt != m {
      updates' := updates + [PollUpdate(fd, oevt, m)];
    }
  }

  /**
    The loop of `evt_fd_changes_update` over the batch `mods[0 .. n - 1]`: each fd's mask
    recomputed from its list, its flag cleared, and a `poll_update` whenever the mask
    differs from the one it replaces.
  */
  method FlushBatch(fds: seq<FdInfo>, mods: seq<nat>, n: nat, ws: map<Id, Watcher>, ghost pmax: nat)
    returns (table: seq<FdInfo>, ghost updates: seq<Effect>)
    requires n <= |mods| && InTable(mods[..n], |fds|) && TableOk(fds, ws, pmax)
    ensures HeadsKnown(fds, ws)
    ensures table == Flush(fds, mods[..n], ws).fds && updates == Flush(fds, mods[..n], ws).log
    ensures TableOk(table, ws, pmax)
  {
    TableOkHeadsKnown(fds, ws, pmax);
    ghost var batch := mods[..n];
    table, updates := fds, [];
    var i := 0;
    while i < n
      invariant 0 <= i <= n
      invariant InTable(batch[..i], |fds|)
      invariant Flushed(table, updates) == Flush(fds, batch[..i], ws)
      invariant TableOk(table, ws, pmax)
    {
      FlushPrefix(fds, batch, ws, i);
      assert mods[i] == batch[i];
      table, updates := FlushOne(table, updates, mods[i], ws, pmax);
      i := i + 1;
    }
    assert batch[..n] == batch;
  }

  /**
    The inner loop of `evt_fd_changes_update`: the OR of the `event` masks of the IO
    watchers met walking an fd's list.
  */
  method ListMask(head: seq<Id>, ws: map<Id, Watcher>) returns (m: Mask)
    requires forall j :: 0 <= j < |head| ==> head[j] in ws
    ensures m == MaskOf(head, ws)
  {
    m := 0;
    var k := 0;
    while k < |head|
      invariant 0 <= k <= |head|
      invariant m == MaskOf(head[..k], ws)
    {
      assert head[..k + 1][..k] == head[..k];
      m := m | ws[head[k]].event;
      k := k + 1;
    }
    assert head[..k] == head;
  }

  /** What the backend dispatches sits on the list of its fd, so it may be appended. */
  lemma DispatchedQueueable(fds: seq<FdInfo>, ws: map<Id, Watcher>, pmax: nat, ready: seq<Id>)
    requires TableOk(fds, ws, pmax)
    requires forall k :: 0 <= k < |ready| ==>
      ready[k] in ws && ws[ready[k]].fd < |fds| && ready[k] in fds[ws[ready[k]].fd].head
    ensures Queueable(ready, ws, pmax + 1)
  {
    forall k | 0 <= k < |ready| ensures ready[k] != EmptyEv && 0 <= ws[ready[k]].priority <= pmax {
      assert Attached(fds[ws[ready[k]].fd].head, ws, Io, pmax);
    }
  }

  /** Effects appended in three steps are the three steps' effects, in order. */
  lemma LogSteps(l0: seq<Effect>, a: seq<Effect>, b: seq<Effect>, c: seq<Effect>)
    ensures l0 + a + b + c == l0 + (a + b + c)
  {
  }

  /**
    Activating a timer or hook watcher with its priority clamped, and appending a hook
    to the tail of its list, keeps the loop invariant; a hook may already be started.
  */
  lemma ActivateOk(pmax: nat, pending: seq<seq<Id>>, cnt: seq<nat>, fds: seq<FdInfo>,
                   fdsMod: seq<nat>, fdsModCnt: nat, befores: seq<Id>, afters: seq<Id>, ws: map<Id, Watcher>,
                   w: Id, v: Watcher, befores': seq<Id>, afters': seq<Id>)
    requires LoopOk(pmax, pending, cnt, fds, fdsMod, fdsModCnt, befores, afters, ws)
    requires w in ws && w != EmptyEv && ws[w].kind != Io
    requires v == ws[w].(active := true, priority := Clamp(ws[w].priority, 0, pmax))
    requires befores' == if ws[w].kind == Before then AddTail(befores, w) else befores
    requires afters' == if ws[w].kind == After then AddTail(afters, w) else afters
    ensures LoopOk(pmax, pending, cnt, fds, fdsMod, fdsModCnt, befores', afters', ws[w := v])
  {
    var qs := Live(pending, cnt);
    if ws[w].pendpos > 0 {
      assert InSlot(qs, w, ws[w].priority, ws[w].pendpos);
    }
    ConsistentUpdate(qs, ws, w, v);
    forall f | 0 <= f < |fds| ensures w !in fds[f].head {
      assert Attached(fds[f].head, ws, Io, pmax);
    }
    TableOkOther(fds, ws, pmax, w, v);
    if ws[w].kind == Before {
      AttachedAddTail(befores, ws, Before, pmax, w, v);
    } else {
      AttachedOther(befores, ws, Before, pmax, w, v);
    }
    if ws[w].kind == After {
      AttachedAddTail(afters, ws, After, pmax, w, v);
    } else {
      AttachedOther(afters, ws, After, pmax, w, v);
    }
  }

  class EvtLoop {
    /** `priority_max`: `evt_loop_init_with_flag` sets it to 0 and nothing in evt.c changes it. */
    const priorityMax: nat
    /** `pending[i]` with `pending_cnt[i]`, for `i` in `0 .. priority_max`. */
    var pending: seq<seq<Id>>
    var pendingCnt: seq<nat>
    /** `fds`, of size `fds_size`. */
    var fds: seq<FdInfo>
    /** `fds_mod` with `fds_mod_cnt`. */
    var fdsMod: seq<nat>
    var fdsModCnt: nat
    /** The before and after lists from their heads. */
    var befores: seq<Id>
    var afters: seq<Id>
    /** Every watcher the loop can reach, the sentinel `empty_ev` included. */
    var watchers: map<Id, Watcher>
    /** `poll_update` calls and callback runs so far. */
    ghost var log: seq<Effect>

    /** The storage shapes the views below need. */
    ghost predicate Sized()
      reads this
    {
      && |pending| == priorityMax + 1 && |pendingCnt| == priorityMax + 1
      && (forall i :: 0 <= i <= priorityMax ==> pendingCnt[i] <= |pending[i]|)
      && fdsModCnt <= |fdsMod|
    }

    /** The unconsumed slots of each level. */
    ghost function Queues(): Queues
      reads this
      requires Sized()
    {
      Live(pending, pendingCnt)
    }

    /** The change batch `fds_mod[0 .. fds_mod_cnt - 1]`. */
    ghost function Batch(): seq<nat>
      reads this
      requires Sized()
    {
      fdsMod[..fdsModCnt]
    }

    ghost function State(): Pend
      reads this
      requires Sized()
    {
      Pend(Queues(), watchers)
    }

    /** The pending storage, the fd table with its batch, and the hook lists, for frame conditions. */
    ghost function Levels(): (seq<seq<Id>>, seq<nat>)
      reads this
    {
      (pending, pendingCnt)
    }

    ghost function Table(): (seq<FdInfo>, seq<nat>, nat)
      reads this
    {
      (fds, fdsMod, fdsModCnt)
    }

    ghost function Hooks(): (seq<Id>, seq<Id>)
      reads this
    {
      (befores, afters)
    }

    /**
      The loop's invariant: the pending bookkeeping is consistent, every batched fd has a
      table entry, and the fd lists and hook lists are well-formed.
    */
    ghost predicate Valid()
      reads this
    {
      LoopOk(priorityMax, pending, pendingCnt, fds, fdsMod, fdsModCnt, befores, afters, watchers)
    }

    /**
      `evt_loop_init_with_flag` on its success path: one priority level of room
      `initPendSize` and no slot used, a table of `initFds` zeroed entries, an empty batch
      of room `initFds`, empty hook lists and the sentinel `empty_ev`.
    */
    constructor Init(initFds: nat, initPendSize: nat)
      ensures Valid()
      ensures priorityMax == 0 && Queues() == [[]] && |pending[0]| == initPendSize
      ensures fds == seq(initFds, _ => ZERO_FD) && Batch() == [] && |fdsMod| == initFds
      ensures befores == [] && afters == []
      ensures watchers == map[EmptyEv := EMPTY_WATCHER] && log == []
    {
      priorityMax := 0;
      pending := [seq(initPendSize, _ => EmptyEv)];
      pendingCnt := [0];
      fds := seq(initFds, _ => ZERO_FD);
      fdsMod := seq(initFds, _ => 0);
      fdsModCnt := 0;
      befores := [];
      afters := [];
      watchers := map[EmptyEv := EMPTY_WATCHER];
      log := [];
    }

    /**
      A caller initialises a watcher of its own (stopped and not queued) and so makes it
      reachable by the loop under a fresh id.
    */
    method Watch(id: Id, w: Watcher)
      requires Valid() && id !in watchers && !w.active && w.pendpos == 0
      modifies this
      ensures Valid()
      ensures watchers == old(watchers)[id := w]
      ensures Levels() == old(Levels()) && Table() == old(Table()) && Hooks() == old(Hooks())
      ensures log == old(log)
    {
      ConsistentFresh(Queues(), watchers, id, w);
      TableOkOther(fds, watchers, priorityMax, id, w);
      AttachedOther(befores, watchers, Before, priorityMax, id, w);
      AttachedOther(afters, watchers, After, priorityMax, id, w);
      watchers := watchers[id := w];
    }

    /**
      `evt_append_pending`: a watcher that is not queued goes to slot `pending_cnt[pri]` of
      its level after the storage is grown to fit, and its `pendpos` becomes the new count;
      a queued watcher is left alone.
    */
    method AppendPending(w: Id)
      requires Valid()
      requires w in watchers && w != EmptyEv && 0 <= watchers[w].priority <= priorityMax
      modifies this
      ensures Valid()
      ensures State() == Enqueue(old(State()), w)
      ensures old(watchers[w].pendpos) != 0 ==> Levels() == old(Levels()) && watchers == old(watchers)
      ensures old(watchers[w].pendpos) == 0 ==>
        SlotStored(old(pending), old(pendingCnt), pending, pendingCnt, old(watchers[w].priority), w)
      ensures Table() == old(Table()) && Hooks() == old(Hooks()) && log == old(log)
    {
      var p := watchers[w].priority;
      if watchers[w].pendpos == 0 {
        var cnt := pendingCnt[p];
        var grown := Reserve(pending[p], cnt + 1, EmptyEv);
        var slots := grown[cnt := w];
        var counts := pendingCnt[p := cnt + 1];
        var ws := watchers[w := watchers[w].(pendpos := cnt + 1)];
        AppendOk(priorityMax, pending, pendingCnt, fds, fdsMod, fdsModCnt, befores, afters, watchers,
                 w, p, grown, slots, counts, ws);
        pending := pending[p := slots];
        pendingCnt := counts;
        watchers := ws;
      }
    }

    /** Appending every watcher of `l` in order: the hook-list walks of `evt_loop_run`. */
    method AppendList(l: seq<Id>)
      requires Valid() && Queueable(l, watchers, priorityMax + 1)
      modifies this
      ensures Valid()
      ensures State() == EnqueueAll(old(State()), l)
      ensures |pending| == old(|pending|)
      ensures Table() == old(Table()) && Hooks() == old(Hooks()) && log == old(log)
    {
      var k := 0;
      while k < |l|
        invariant 0 <= k <= |l|
        invariant Valid() && |pending| == old(|pending|)
        invariant State() == EnqueueAll(old(State()), l[..k])
        invariant Queueable(l, watchers, priorityMax + 1)
        invariant Table() == old(Table()) && Hooks() == old(Hooks()) && log == old(log)
      {
        ghost var prev := watchers;
        AppendPending(l[k]);
        EnqueueAllPrefix(old(State()), l, k);
        QueueableSameBut(l, prev, watchers, priorityMax + 1);
        k := k + 1;
      }
      assert l[..k] == l;
    }

    /**
      `evt_execute_pending`: levels `0 .. priority_max` in order, each slot in index order;
      a slot's watcher gets `pendpos` 0 and then its callback runs if it has one; each
      level's count is reset after its slots. The storage itself is not touched.
    */
    method ExecutePending()
      requires Valid()
      modifies this
      ensures Valid()
      ensures log == old(log) + Fired(old(Queues()), old(watchers))
      ensures watchers == ZeroPendpos(old(watchers))
      ensures pending == old(pending) && pendingCnt == seq(priorityMax + 1, _ => 0)
      ensures Queues() == Empties(priorityMax + 1)
      ensures Table() == old(Table()) && Hooks() == old(Hooks())
    {
      var cnt, ws, fired, seen := Drain(pending, pendingCnt, watchers);
      DrainOk(priorityMax, pending, pendingCnt, fds, fdsMod, fdsModCnt, befores, afters, watchers);
      pendingCnt := cnt;
      watchers := ws;
      log := log + fired;
    }

    /**
      `evt_fd_change`: queue `fd` in `fds_mod` unless its change flag is set. The flag is
      then meant to be set, but the source's statement for it (evbase/evt.c:192) only
      compares and discards the result, so the flag stays clear and every call appends.
    */
    method FdChange(fd: nat)
      requires Valid() && fd < |fds|
      modifies this
      ensures Valid()
      ensures Batch() == old(Batch()) + [fd]
      ensures fdsModCnt == old(fdsModCnt) + 1 && fds == old(fds)
      ensures Levels() == old(Levels()) && Hooks() == old(Hooks())
      ensures watchers == old(watchers) && log == old(log)
    {
      var m, c := Mark(fds, fdsMod, fdsModCnt, fd).0, Mark(fds, fdsMod, fdsModCnt, fd).1;
      BatchOk(priorityMax, pending, pendingCnt, fds, fdsMod, fdsModCnt, befores, afters, watchers, fd, m, c);
      fdsMod, fdsModCnt := m, c;
    }

    /**
      `evt_fd_changes_update`: for each batched fd, keep the old mask, recompute it as the
      OR of `event` over the fd's list, clear the flag, and call `poll_update` when the
      mask changed; then empty the batch.
    */
    method FdChangesUpdate()
      requires Valid()
      modifies this
      ensures Valid()
      ensures HeadsKnown(old(fds), watchers)
      ensures fds == Flush(old(fds), old(Batch()), watchers).fds
      ensures log == old(log) + Flush(old(fds), old(Batch()), watchers).log
      ensures fdsMod == old(fdsMod) && fdsModCnt == 0
      ensures Levels() == old(Levels()) && Hooks() == old(Hooks()) && watchers == old(watchers)
    {
      TableOkHeadsKnown(fds, watchers, priorityMax);
      var table, updates := FlushBatch(fds, fdsMod, fdsModCnt, watchers, priorityMax);
      fds := table;
      log := log + updates;
      fdsModCnt := 0;
    }

    /**
      `evt_io_start`: `active = 1`, priority clamped into `[0, priority_max]`, the table
      grown to hold index `fd` with zeroed entries, the watcher prepended to `fds[fd]`'s
      list, and `fd` queued in the batch.
    */
    method IoStart(w: Id)
      requires Valid() && w in watchers && w != EmptyEv
      requires watchers[w].kind == Io && !watchers[w].active
      modifies this
      ensures Valid()
      ensures watchers == old(watchers)[w := old(watchers[w]).(active := true,
        priority := Clamp(old(watchers[w].priority), 0, priorityMax))]
      ensures |fds| >= old(watchers[w].fd) + 1 && |fds| >= old(|fds|)
      ensures fds[old(watchers[w].fd)] ==
        EntryOf(old(fds), old(watchers[w].fd)).(head := Add(EntryOf(old(fds), old(watchers[w].fd)).head, w))
      ensures forall f :: 0 <= f < |fds| && f != old(watchers[w].fd) ==> fds[f] == EntryOf(old(fds), f)
      ensures Batch() == old(Batch()) + [old(watchers[w].fd)]
      ensures Levels() == old(Levels()) && Hooks() == old(Hooks()) && log == old(log)
    {
      var fd := watchers[w].fd;
      var v := watchers[w].(active := true, priority := Clamp(watchers[w].priority, 0, priorityMax));
      var grown := Reserve(fds, fd + 1, ZERO_FD);
      var table := grown[fd := grown[fd].(head := Add(grown[fd].head, w))];
      var m, c := Mark(table, fdsMod, fdsModCnt, fd).0, Mark(table, fdsMod, fdsModCnt, fd).1;
      IoStartOk(priorityMax, pending, pendingCnt, fds, fdsMod, fdsModCnt, befores, afters, watchers, w, v, table, m, c);
      watchers, fds, fdsMod, fdsModCnt := watchers[w := v], table, m, c;
    }

    /**
      `evt_io_stop`: deactivate and purge, unlink the watcher from `fds[fd]`'s list, and
      queue `fd` in the batch.
    */
    method IoStop(w: Id)
      requires Valid() && w in watchers && w != EmptyEv
      requires watchers[w].kind == Io && watchers[w].fd < |fds|
      modifies this
      ensures Valid()
      ensures watchers == old(watchers)[w := old(watchers[w]).(active := false, pendpos := 0)]
      ensures Queues() == Purged(old(State()), w).queues && pendingCnt == old(pendingCnt)
      ensures fds == old(fds)[old(watchers[w].fd) :=
        old(fds[watchers[w].fd]).(head := RemoveFirst(old(fds[watchers[w].fd].head), w))]
      ensures w !in fds[old(watchers[w].fd)].head
      ensures Batch() == old(Batch()) + [old(watchers[w].fd)]
      ensures Hooks() == old(Hooks()) && log == old(log)
    {
      var levels, ws, table, m, c := IoStopStep(priorityMax, pending, pendingCnt, fds, fdsMod, fdsModCnt, befores, afters, watchers, w);
      pending, watchers, fds, fdsMod, fdsModCnt := levels, ws, table, m, c;
    }

    /** `evt_timer_start`: only `active = 1` and the priority clamp; the source keeps no timer heap. */
    method TimerStart(w: Id)
      requires Valid() && w in watchers && w != EmptyEv && watchers[w].kind == Timer
      modifies this
      ensures Valid()
      ensures watchers == old(watchers)[w := old(watchers[w]).(active := true,
        priority := Clamp(old(watchers[w].priority), 0, priorityMax))]
      ensures Levels() == old(Levels()) && Table() == old(Table()) && Hooks() == old(Hooks())
      ensures log == old(log)
    {
      var v := watchers[w].(active := true);
      v := v.(priority := Clamp(v.priority, 0, priorityMax));
      ActivateOk(priorityMax, pending, pendingCnt, fds, fdsMod, fdsModCnt, befores, afters, watchers, w, v, befores, afters);
      watchers := watchers[w := v];
    }

    /**
      `evt_before_start`: `active = 1`, priority clamped, appended at the tail of the before
      list (which, for a hook already on it, cuts the list after the hook).
    */
    method BeforeStart(w: Id)
      requires Valid() && w in watchers && w != EmptyEv && watchers[w].kind == Before
      modifies this
      ensures Valid()
      ensures watchers == old(watchers)[w := old(watchers[w]).(active := true,
        priority := Clamp(old(watchers[w].priority), 0, priorityMax))]
      ensures befores == AddTail(old(befores), w) && afters == old(afters)
      ensures Levels() == old(Levels()) && Table() == old(Table()) && log == old(log)
    {
      var v := watchers[w].(active := true);
      v := v.(priority := Clamp(v.priority, 0, priorityMax));
      ActivateOk(priorityMax, pending, pendingCnt, fds, fdsMod, fdsModCnt, befores, afters, watchers, w, v, AddTail(befores, w), afters);
      watchers := watchers[w := v];
      befores := AddTail(befores, w);
    }

    /** `evt_before_stop`: deactivate and purge, then unlink from the before list. */
    method BeforeStop(w: Id)
      requires Valid() && w in watchers && w != EmptyEv && watchers[w].kind == Before
      modifies this
      ensures Valid()
      ensures watchers == old(watchers)[w := old(watchers[w]).(active := false, pendpos := 0)]
      ensures Queues() == Purged(old(State()), w).queues && pendingCnt == old(pendingCnt)
      ensures befores == RemoveFirst(old(befores), w) && w !in befores && afters == old(afters)
      ensures Table() == old(Table()) && log == old(log)
    {
      var levels, ws := Unqueue(priorityMax, pending, pendingCnt, watchers, w);
      var h := RemoveFirst(befores, w);
      DetachBeforeOk(priorityMax, pending, pendingCnt, fds, fdsMod, fdsModCnt, befores, afters, watchers,
        w, levels, ws, h);
      pending, watchers, befores := levels, ws, h;
    }

    /**
      `evt_after_start`: `active = 1`, priority clamped, appended at the tail of the after
      list (which, for a hook already on it, cuts the list after the hook).
    */
    method AfterStart(w: Id)
      requires Valid() && w in watchers && w != EmptyEv && watchers[w].kind == After
      modifies this
      ensures Valid()
      ensures watchers == old(watchers)[w := old(watchers[w]).(active := true,
        priority := Clamp(old(watchers[w].priority), 0, priorityMax))]
      ensures afters == AddTail(old(afters), w) && befores == old(befores)
      ensures Levels() == old(Levels()) && Table() == old(Table()) && log == old(log)
    {
      var v := watchers[w].(active := true);
      v := v.(priority := Clamp(v.priority, 0, priorityMax));
      ActivateOk(priorityMax, pending, pendingCnt, fds, fdsMod, fdsModCnt, befores, afters, watchers, w, v, befores, AddTail(afters, w));
      watchers := watchers[w := v];
      afters := AddTail(afters, w);
    }

    /** `evt_after_stop`: deactivate and purge, then unlink from the after list. */
    method AfterStop(w: Id)
      requires Valid() && w in watchers && w != EmptyEv && watchers[w].kind == After
      modifies this
      ensures Valid()
      ensures watchers == old(watchers)[w := old(watchers[w]).(active := false, pendpos := 0)]
      ensures Queues() == Purged(old(State()), w).queues && pendingCnt == old(pendingCnt)
      ensures afters == RemoveFirst(old(afters), w) && w !in afters && befores == old(befores)
      ensures Table() == old(Table()) && log == old(log)
    {
      var levels, ws := Unqueue(priorityMax, pending, pendingCnt, watchers, w);
      var h := RemoveFirst(afters, w);
      DetachAfterOk(priorityMax, pending, pendingCnt, fds, fdsMod, fdsModCnt, befores, afters, watchers,
        w, levels, ws, h);
      pending, watchers, afters := levels, ws, h;
    }

    /**
      One iteration of the `while (1)` body of `evt_loop_run`. The backend's dispatch is
      the parameter `ready`: the IO watchers, each on its fd's list, that it appends.
    */
    method RunOnce(ready: seq<Id>)
      requires Valid()
      requires forall k :: 0 <= k < |ready| ==>
        ready[k] in watchers && watchers[ready[k]].fd < |fds| && ready[k] in fds[watchers[ready[k]].fd].head
      modifies this
      ensures Valid()
      ensures Queueable(old(befores), old(watchers), priorityMax + 1)
      ensures Queueable(ready + old(afters), old(watchers), priorityMax + 1)
      ensures TableOk(old(fds), old(watchers), priorityMax) && HeadsKnown(old(fds), old(watchers))
      ensures log == old(log) + TickTrace(old(State()), old(befores), old(afters), ready, old(fds), old(Batch()))
      ensures fds == Flush(old(fds), old(Batch()), old(watchers)).fds && Batch() == []
      ensures watchers == ZeroPendpos(old(watchers))
      ensures Queues() == Empties(priorityMax + 1)
      ensures Hooks() == old(Hooks())
    {
      ghost var s0, f0, b0, l0 := State(), fds, Batch(), log;
      TableOkHeadsKnown(fds, watchers, priorityMax);
      AttachedQueueable(befores, watchers, Before, priorityMax);
      AttachedQueueable(afters, watchers, After, priorityMax);
      DispatchedQueueable(fds, watchers, priorityMax, ready);

      AppendList(befores);
      ghost var s1 := State();
      ExecutePending();
      ghost var first := Fired(s1.queues, s1.ws);
      assert log == l0 + first;
      ZeroPendposSameBut(s0.ws, s1.ws);
      FdChangesUpdate();
      ghost var flushed := Flush(f0, b0, ZeroPendpos(s1.ws)).log;
      assert log == l0 + first + flushed;

      // the backend's dispatch, then the after hooks
      QueueableSameBut(ready, s0.ws, watchers, priorityMax + 1);
      AppendList(ready);
      ghost var s2 := State();
      QueueableSameBut(afters, s0.ws, watchers, priorityMax + 1);
      AppendList(afters);
      ghost var s3 := State();
      ExecutePending();
      TickSteps(s0, befores, afters, ready, f0, b0, s1, s2, s3);
      LogSteps(l0, first, flushed, Fired(s3.queues, s3.ws));
    }
  }
}
