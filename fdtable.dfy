/**
  The fd table (`fds`, one `struct fd_info` per fd) and the flush of the change batch
  (`fds_mod`) that recomputes interest masks and tells the backend about real changes.
*/
module FdTable {
  import opened Watchers
  import opened Lists

  /**
    One fd: the ids on its IO-watcher list from the head, the mask last given to the
    backend (`events`), and the `FD_FLAG_CHANGE` bit of `flag`.
  */
  datatype FdInfo = FdInfo(head: seq<Id>, events: Mask, changeFlag: bool)

  /** A table entry as `init_array_zero` leaves it. */
  const ZERO_FD := FdInfo([], 0, false)

  /**
    A well-formed table: no change flag is ever set (see `Loop.EvtLoop.FdChange`), and each
    fd's list holds started IO watchers registered on that very fd.
  */
  predicate TableOk(fds: seq<FdInfo>, ws: map<Id, Watcher>, pmax: nat)
  {
    forall f :: 0 <= f < |fds| ==>
      && !fds[f].changeFlag
      && Attached(fds[f].head, ws, Io, pmax)
      && forall j :: 0 <= j < |fds[f].head| ==> ws[fds[f].head[j]].fd == f
  }

  predicate HeadsKnown(fds: seq<FdInfo>, ws: map<Id, Watcher>)
  {
    forall f, j :: 0 <= f < |fds| && 0 <= j < |fds[f].head| ==> fds[f].head[j] in ws
  }

  predicate InTable(batch: seq<nat>, n: nat)
  {
    forall k :: 0 <= k < |batch| ==> batch[k] < n
  }

  /** The OR of `event` over the watchers of a list, accumulated from the head. */
  function MaskOf(ids: seq<Id>, ws: map<Id, Watcher>): (m: Mask)
    requires forall j :: 0 <= j < |ids| ==> ids[j] in ws
    ensures forall j :: 0 <= j < |ids| ==> ws[ids[j]].event & m == ws[ids[j]].event
    decreases |ids|
  {
    if ids == [] then 0
    else MaskOf(ids[..|ids| - 1], ws) | ws[ids[|ids| - 1]].event
  }

  /** `MaskOf` has no bit that no watcher asks for: it is below every mask covering them all. */
  lemma {:induction false} MaskOfLeast(ids: seq<Id>, ws: map<Id, Watcher>, c: Mask)
    requires forall j :: 0 <= j < |ids| ==> ids[j] in ws
    requires forall j :: 0 <= j < |ids| ==> ws[ids[j]].event & c == ws[ids[j]].event
    ensures MaskOf(ids, ws) & c == MaskOf(ids, ws)
    decreases |ids|
  {
    if ids != [] {
      MaskOfLeast(ids[..|ids| - 1], ws, c);
      var a, b := MaskOf(ids[..|ids| - 1], ws), ws[ids[|ids| - 1]].event;
      assert (a | b) & c == (a & c) | (b & c);
    }
  }

  /** Prepending a watcher (as `evt_io_start` does) adds its interest to the mask. */
  lemma {:induction false} MaskOfAdd(ids: seq<Id>, ws: map<Id, Watcher>, x: Id)
    requires forall j :: 0 <= j < |ids| ==> ids[j] in ws
    requires x in ws
    ensures MaskOf(Add(ids, x), ws) == ws[x].event | MaskOf(ids, ws)
    decreases |ids|
  {
    if ids != [] {
      var l := ids[..|ids| - 1];
      MaskOfAdd(l, ws, x);
      assert Add(ids, x)[..|Add(ids, x)| - 1] == Add(l, x);
      var a, b, e := MaskOf(l, ws), ws[ids[|ids| - 1]].event, ws[x].event;
      assert (e | a) | b == e | (a | b);
    }
  }

  /** The entry the flush leaves for a batched fd: its list kept, its mask recomputed, its flag cleared. */
  function Refreshed(e: FdInfo, ws: map<Id, Watcher>): FdInfo
    requires forall j :: 0 <= j < |e.head| ==> e.head[j] in ws
  {
    FdInfo(e.head, MaskOf(e.head, ws), false)
  }

  /** What the flush leaves: the table and the backend calls it made, in order. */
  datatype Flushed = Flushed(fds: seq<FdInfo>, log: seq<Effect>)

  /**
    One batched fd of `evt_fd_changes_update`: keep the old mask, recompute it, clear the
    flag, and call `poll_update(fd, old, new)` when the two differ.
  */
  function FlushStep(prev: Flushed, fd: nat, ws: map<Id, Watcher>): (r: Flushed)
    requires fd < |prev.fds| && forall j :: 0 <= j < |prev.fds[fd].head| ==> prev.fds[fd].head[j] in ws
    ensures |r.fds| == |prev.fds|
    ensures forall f :: 0 <= f < |prev.fds| ==> r.fds[f].head == prev.fds[f].head
  {
    var e := prev.fds[fd];
    var m := MaskOf(e.head, ws);
    Flushed(prev.fds[fd := Refreshed(e, ws)],
            prev.log + if e.events != m then [PollUpdate(fd, e.events, m)] else [])
  }

  /** `evt_fd_changes_update` over the batch `fds_mod[0 .. fds_mod_cnt - 1]`, entry by entry. */
  function Flush(fds: seq<FdInfo>, batch: seq<nat>, ws: map<Id, Watcher>): (r: Flushed)
    requires InTable(batch, |fds|) && HeadsKnown(fds, ws)
    ensures |r.fds| == |fds|
    ensures forall f :: 0 <= f < |fds| ==> r.fds[f].head == fds[f].head
    decreases |batch|
  {
    if batch == [] then Flushed(fds, [])
    else FlushStep(Flush(fds, batch[..|batch| - 1], ws), batch[|batch| - 1], ws)
  }

  /** Flushing the first `i + 1` batch entries is flushing the first `i` and then entry `i`. */
  lemma FlushPrefix(fds: seq<FdInfo>, batch: seq<nat>, ws: map<Id, Watcher>, i: nat)
    requires i < |batch| && InTable(batch, |fds|) && HeadsKnown(fds, ws)
    ensures InTable(batch[..i], |fds|) && InTable(batch[..i + 1], |fds|)
    ensures Flush(fds, batch[..i + 1], ws) == FlushStep(Flush(fds, batch[..i], ws), batch[i], ws)
  {
    var m := batch[..i + 1];
    assert m[..|m| - 1] == batch[..i] && m[|m| - 1] == batch[i];
  }

  lemma {:induction false} FlushRefreshes(fds: seq<FdInfo>, batch: seq<nat>, ws: map<Id, Watcher>)
    requires InTable(batch, |fds|) && HeadsKnown(fds, ws)
    ensures forall f :: 0 <= f < |fds| ==>
      Flush(fds, batch, ws).fds[f] == if f in batch then Refreshed(fds[f], ws) else fds[f]
    decreases |batch|
  {
    if batch != [] {
      var b := batch[..|batch| - 1];
      FlushRefreshes(fds, b, ws);
      assert batch == b + [batch[|batch| - 1]];
    }
  }

  /**
    The backend hears about an fd exactly when it was batched and its recomputed mask
    differs from the mask it had before the flush, and then with those two masks.
  */
  lemma {:induction false} FlushReports(fds: seq<FdInfo>, batch: seq<nat>, ws: map<Id, Watcher>, e: Effect)
    requires InTable(batch, |fds|) && HeadsKnown(fds, ws)
    ensures e in Flush(fds, batch, ws).log <==>
      && e.PollUpdate? && e.fd in batch && e.fd < |fds|
      && e.oldMask == fds[e.fd].events
      && e.newMask == MaskOf(fds[e.fd].head, ws)
      && e.oldMask != e.newMask
    decreases |batch|
  {
    if batch != [] {
      var b, fd := batch[..|batch| - 1], batch[|batch| - 1];
      FlushReports(fds, b, ws, e);
      FlushRefreshes(fds, b, ws);
      assert forall y :: y in batch <==> y in b || y == fd by {
        assert batch == b + [fd];
      }
      var prev := Flush(fds, b, ws);
      assert prev.fds[fd] == if fd in b then Refreshed(fds[fd], ws) else fds[fd];
      var m := MaskOf(fds[fd].head, ws);
      var extra := if prev.fds[fd].events != m then [PollUpdate(fd, prev.fds[fd].events, m)] else [];
      assert Flush(fds, batch, ws).log == prev.log + extra;
      assert e in prev.log + extra <==> e in prev.log || e in extra;
    }
  }

  /** Every backend call of a flush is an update, and no fd is updated twice. */
  lemma {:induction false} FlushOncePerFd(fds: seq<FdInfo>, batch: seq<nat>, ws: map<Id, Watcher>)
    requires InTable(batch, |fds|) && HeadsKnown(fds, ws)
    ensures forall k :: 0 <= k < |Flush(fds, batch, ws).log| ==> Flush(fds, batch, ws).log[k].PollUpdate?
    ensures forall i, j :: 0 <= i < j < |Flush(fds, batch, ws).log| ==>
      Flush(fds, batch, ws).log[i].fd != Flush(fds, batch, ws).log[j].fd
    decreases |batch|
  {
    if batch != [] {
      var b := batch[..|batch| - 1];
      var fd := batch[|batch| - 1];
      FlushOncePerFd(fds, b, ws);
      FlushRefreshes(fds, b, ws);
      var prev := Flush(fds, b, ws);
      if fd !in b {
        forall k | 0 <= k < |prev.log| ensures prev.log[k].fd != fd {
          FlushReports(fds, b, ws, prev.log[k]);
        }
      }
    }
  }

  /** The last entry of a batch repeats an earlier one: flushing it again changes nothing. */
  lemma FlushDedupSeen(fds: seq<FdInfo>, batch: seq<nat>, ws: map<Id, Watcher>)
    requires batch != [] && InTable(batch, |fds|) && HeadsKnown(fds, ws)
    requires batch[|batch| - 1] in batch[..|batch| - 1]
    requires InTable(Dedup(batch[..|batch| - 1]), |fds|)
    requires Flush(fds, batch[..|batch| - 1], ws) == Flush(fds, Dedup(batch[..|batch| - 1]), ws)
    ensures InTable(Dedup(batch), |fds|)
    ensures Flush(fds, batch, ws) == Flush(fds, Dedup(batch), ws)
  {
    var b, fd := batch[..|batch| - 1], batch[|batch| - 1];
    var prev := Flush(fds, b, ws);
    FlushRefreshes(fds, b, ws);
    var e := prev.fds[fd];
    assert e == Refreshed(e, ws);
    assert prev.fds[fd := Refreshed(e, ws)] == prev.fds;
  }

  /** The last entry of a batch is new: it is flushed after the deduplicated rest. */
  lemma FlushDedupNew(fds: seq<FdInfo>, batch: seq<nat>, ws: map<Id, Watcher>)
    requires batch != [] && InTable(batch, |fds|) && HeadsKnown(fds, ws)
    requires batch[|batch| - 1] !in batch[..|batch| - 1]
    requires InTable(Dedup(batch[..|batch| - 1]), |fds|)
    requires Flush(fds, batch[..|batch| - 1], ws) == Flush(fds, Dedup(batch[..|batch| - 1]), ws)
    ensures InTable(Dedup(batch), |fds|)
    ensures Flush(fds, batch, ws) == Flush(fds, Dedup(batch), ws)
  {
    var b, fd := batch[..|batch| - 1], batch[|batch| - 1];
    var d' := Dedup(b) + [fd];
    assert Dedup(batch) == d';
    assert d'[..|d'| - 1] == Dedup(b);
    assert InTable(d', |fds|);
  }

  /**
    Duplicate entries in the batch do not matter: the flush of a batch is the flush of
    its entries taken once each, in order of first appearance.
  */
  lemma {:induction false} FlushDedup(fds: seq<FdInfo>, batch: seq<nat>, ws: map<Id, Watcher>)
    requires InTable(batch, |fds|) && HeadsKnown(fds, ws)
    ensures InTable(Dedup(batch), |fds|)
    ensures Flush(fds, batch, ws) == Flush(fds, Dedup(batch), ws)
    decreases |batch|
  {
    if batch != [] {
      var b := batch[..|batch| - 1];
      FlushDedup(fds, b, ws);
      if batch[|batch| - 1] in b {
        FlushDedupSeen(fds, batch, ws);
      } else {
        FlushDedupNew(fds, batch, ws);
      }
    }
  }

  /** The entry of fd `f`, reading an fd past the end of the table as a zeroed one. */
  function EntryOf(fds: seq<FdInfo>, f: nat): (e: FdInfo)
    ensures f < |fds| ==> e == fds[f]
    ensures f >= |fds| ==> e == ZERO_FD
  {
    if f < |fds| then fds[f] else ZERO_FD
  }

  lemma TableOkHeadsKnown(fds: seq<FdInfo>, ws: map<Id, Watcher>, pmax: nat)
    requires TableOk(fds, ws, pmax)
    ensures HeadsKnown(fds, ws)
  {
    forall f, j | 0 <= f < |fds| && 0 <= j < |fds[f].head| ensures fds[f].head[j] in ws {
      assert Attached(fds[f].head, ws, Io, pmax);
    }
  }

  /** No fd list holds a watcher that is not started. */
  lemma TableOkInactive(fds: seq<FdInfo>, ws: map<Id, Watcher>, pmax: nat, w: Id)
    requires TableOk(fds, ws, pmax) && w in ws && !ws[w].active
    ensures forall f :: 0 <= f < |fds| ==> w !in fds[f].head
  {
    forall f | 0 <= f < |fds| ensures w !in fds[f].head {
      assert Attached(fds[f].head, ws, Io, pmax);
    }
  }

  lemma TableOkSameBut(fds: seq<FdInfo>, ws: map<Id, Watcher>, ws': map<Id, Watcher>, pmax: nat)
    requires TableOk(fds, ws, pmax) && SameBut(ws, ws')
    ensures TableOk(fds, ws', pmax)
  {
    forall f | 0 <= f < |fds| ensures Attached(fds[f].head, ws', Io, pmax)
      && forall j :: 0 <= j < |fds[f].head| ==> ws'[fds[f].head[j]].fd == f
    {
      AttachedSameBut(fds[f].head, ws, ws', Io, pmax);
      forall j | 0 <= j < |fds[f].head| ensures ws'[fds[f].head[j]].fd == f {
        var x := fds[f].head[j];
        assert ws'[x].(pendpos := 0) == ws[x].(pendpos := 0);
      }
    }
  }

  /** Changing the record of a watcher on no fd list keeps the table well-formed. */
  lemma TableOkOther(fds: seq<FdInfo>, ws: map<Id, Watcher>, pmax: nat, w: Id, v: Watcher)
    requires TableOk(fds, ws, pmax)
    requires forall f :: 0 <= f < |fds| ==> w !in fds[f].head
    ensures TableOk(fds, ws[w := v], pmax)
  {
    forall f | 0 <= f < |fds| ensures Attached(fds[f].head, ws[w := v], Io, pmax) {
      AttachedOther(fds[f].head, ws, Io, pmax, w, v);
    }
  }

  /** Growing the table with zeroed entries keeps it well-formed. */
  lemma TableOkGrow(fds: seq<FdInfo>, ws: map<Id, Watcher>, pmax: nat, n: nat)
    requires TableOk(fds, ws, pmax)
    ensures TableOk(Reserve(fds, n, ZERO_FD), ws, pmax)
  {
    var r := Reserve(fds, n, ZERO_FD);
    forall f | 0 <= f < |r| ensures !r[f].changeFlag && Attached(r[f].head, ws, Io, pmax)
      && forall j :: 0 <= j < |r[f].head| ==> ws[r[f].head[j]].fd == f
    {
      if f < |fds| { assert r[f] == r[..|fds|][f] == fds[f]; }
    }
  }

  /** Prepending a started IO watcher of fd `fd` to that fd's list keeps the table well-formed. */
  lemma TableOkAttach(fds: seq<FdInfo>, ws: map<Id, Watcher>, pmax: nat, w: Id, v: Watcher, fd: nat)
    requires TableOk(fds, ws, pmax) && fd < |fds| && w != EmptyEv
    requires forall f :: 0 <= f < |fds| ==> w !in fds[f].head
    requires v.kind == Io && v.active && 0 <= v.priority <= pmax && v.fd == fd
    ensures TableOk(fds[fd := fds[fd].(head := Add(fds[fd].head, w))], ws[w := v], pmax)
  {
    var ws' := ws[w := v];
    var r := fds[fd := fds[fd].(head := Add(fds[fd].head, w))];
    forall f | 0 <= f < |r| ensures !r[f].changeFlag && Attached(r[f].head, ws', Io, pmax)
      && forall j :: 0 <= j < |r[f].head| ==> ws'[r[f].head[j]].fd == f
    {
      var h := fds[f].head;
      AttachedOther(h, ws, Io, pmax, w, v);
      if f == fd {
        assert r[f].head == [w] + h;
        forall j | 0 <= j < |r[f].head| ensures r[f].head[j] in ws' && r[f].head[j] != EmptyEv
          && ws'[r[f].head[j]].kind == Io && ws'[r[f].head[j]].active
          && 0 <= ws'[r[f].head[j]].priority <= pmax && ws'[r[f].head[j]].fd == f
        {
          if j > 0 { assert r[f].head[j] == h[j - 1]; }
        }
      }
    }
  }

  /** Unlinking an IO watcher from its own fd's list keeps the table well-formed. */
  lemma TableOkDetach(fds: seq<FdInfo>, ws: map<Id, Watcher>, pmax: nat, w: Id, v: Watcher, fd: nat)
    requires TableOk(fds, ws, pmax) && fd < |fds| && w in ws && ws[w].fd == fd
    ensures w !in RemoveFirst(fds[fd].head, w)
    ensures TableOk(fds[fd := fds[fd].(head := RemoveFirst(fds[fd].head, w))], ws[w := v], pmax)
  {
    var ws' := ws[w := v];
    var r := fds[fd := fds[fd].(head := RemoveFirst(fds[fd].head, w))];
    AttachedRemove(fds[fd].head, ws, Io, pmax, w, v);
    forall f | 0 <= f < |r| ensures !r[f].changeFlag && Attached(r[f].head, ws', Io, pmax)
      && forall j :: 0 <= j < |r[f].head| ==> ws'[r[f].head[j]].fd == f
    {
      var h := fds[f].head;
      if f == fd {
        RemoveFirstNoDup(h, w);
        forall j | 0 <= j < |r[f].head| ensures ws'[r[f].head[j]].fd == f {
          var x := r[f].head[j];
          assert x in h && x != w;
          var i :| 0 <= i < |h| && h[i] == x;
        }
      } else {
        assert forall i :: 0 <= i < |h| ==> h[i] != w by {
          forall i | 0 <= i < |h| ensures h[i] != w {
            assert ws[h[i]].fd == f;
          }
        }
        assert w !in h;
        AttachedOther(h, ws, Io, pmax, w, v);
      }
    }
  }

  /**
    The table side of `evt_io_start`: growing the table to hold the watcher's fd and
    prepending the watcher, now started, to that fd's list keeps the table well-formed;
    every other entry is the old one or a zeroed new one.
  */
  lemma TableOkPrepend(fds: seq<FdInfo>, ws: map<Id, Watcher>, pmax: nat, w: Id, v: Watcher)
    requires TableOk(fds, ws, pmax) && w in ws && w != EmptyEv && !ws[w].active
    requires v.kind == Io && v.active && 0 <= v.priority <= pmax && v.fd == ws[w].fd
    ensures var fd := v.fd;
      var grown := Reserve(fds, fd + 1, ZERO_FD);
      var fds' := grown[fd := grown[fd].(head := Add(grown[fd].head, w))];
      && TableOk(fds', ws[w := v], pmax)
      && |fds'| >= fd + 1 && |fds'| >= |fds|
      && fds'[fd] == EntryOf(fds, fd).(head := Add(EntryOf(fds, fd).head, w))
      && forall f :: 0 <= f < |fds'| && f != fd ==> fds'[f] == EntryOf(fds, f)
  {
    var fd := v.fd;
    TableOkInactive(fds, ws, pmax, w);
    var grown := Reserve(fds, fd + 1, ZERO_FD);
    TableOkGrow(fds, ws, pmax, fd + 1);
    forall f | 0 <= f < |grown| ensures w !in grown[f].head && grown[f] == EntryOf(fds, f) {
      if f < |fds| {
        assert grown[f] == grown[..|fds|][f];
      }
    }
    TableOkAttach(grown, ws, pmax, w, v, fd);
  }

  /** Recomputing one fd's mask and clearing its flag keeps the table well-formed. */
  lemma TableOkRefresh(fds: seq<FdInfo>, ws: map<Id, Watcher>, pmax: nat, fd: nat, m: Mask)
    requires TableOk(fds, ws, pmax) && fd < |fds|
    ensures TableOk(fds[fd := FdInfo(fds[fd].head, m, false)], ws, pmax)
  {
  }

  /** Masks depend only on the interest of the watchers, not on their `pendpos`. */
  lemma {:induction false} MaskOfSameBut(ids: seq<Id>, ws: map<Id, Watcher>, ws': map<Id, Watcher>)
    requires forall j :: 0 <= j < |ids| ==> ids[j] in ws
    requires SameBut(ws, ws')
    ensures MaskOf(ids, ws) == MaskOf(ids, ws')
    decreases |ids|
  {
    if ids != [] {
      MaskOfSameBut(ids[..|ids| - 1], ws, ws');
      var x := ids[|ids| - 1];
      assert ws'[x].(pendpos := 0) == ws[x].(pendpos := 0);
    }
  }

  /** So the flush does not depend on `pendpos` either. */
  lemma {:induction false} FlushSameBut(fds: seq<FdInfo>, batch: seq<nat>, ws: map<Id, Watcher>, ws': map<Id, Watcher>)
    requires InTable(batch, |fds|) && HeadsKnown(fds, ws) && SameBut(ws, ws')
    ensures HeadsKnown(fds, ws')
    ensures Flush(fds, batch, ws) == Flush(fds, batch, ws')
    decreases |batch|
  {
    if batch != [] {
      FlushSameBut(fds, batch[..|batch| - 1], ws, ws');
      var fd := batch[|batch| - 1];
      var prev := Flush(fds, batch[..|batch| - 1], ws);
      MaskOfSameBut(prev.fds[fd].head, ws, ws');
    }
  }
}
