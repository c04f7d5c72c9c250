/**
  One iteration of `evt_loop_run` as a value: what it appends, drains and flushes, and
  the sequence of effects (callbacks and backend updates) it produces.
*/
module Tick {
  import opened Watchers
  import opened Lists
  import opened Pending
  import opened FdTable

  /** Every entry may be handed to `evt_append_pending`: a known real watcher whose priority has a level. */
  predicate Queueable(l: seq<Id>, ws: map<Id, Watcher>, n: nat)
  {
    forall k :: 0 <= k < |l| ==> l[k] in ws && l[k] != EmptyEv && 0 <= ws[l[k]].priority < n
  }

  /** The nodes of a well-formed list of the loop may all be appended. */
  lemma AttachedQueueable(l: seq<Id>, ws: map<Id, Watcher>, k: Kind, pmax: nat)
    requires Attached(l, ws, k, pmax)
    ensures Queueable(l, ws, pmax + 1)
  {
  }

  lemma QueueableSameBut(l: seq<Id>, ws: map<Id, Watcher>, ws': map<Id, Watcher>, n: nat)
    requires Queueable(l, ws, n) && SameBut(ws, ws')
    ensures Queueable(l, ws', n)
  {
    forall k | 0 <= k < |l| ensures 0 <= ws'[l[k]].priority < n {
      assert ws'[l[k]].(pendpos := 0) == ws[l[k]].(pendpos := 0);
    }
  }

  /** The watchers of `l` with priority `p`, each at its first occurrence, in the order of `l`. */
  function Select(l: seq<Id>, ws: map<Id, Watcher>, p: int): (r: seq<Id>)
    requires forall k :: 0 <= k < |l| ==> l[k] in ws
    ensures forall j :: 0 <= j < |r| ==> r[j] in ws && ws[r[j]].priority == p
    decreases |l|
  {
    if l == [] then []
    else
      var d := Select(l[..|l| - 1], ws, p);
      var x := l[|l| - 1];
      if ws[x].priority == p && x !in d then d + [x] else d
  }

  /** `Select` keeps exactly the watchers of `l` at level `p`, each once. */
  lemma {:induction false} SelectFacts(l: seq<Id>, ws: map<Id, Watcher>, p: int)
    requires forall k :: 0 <= k < |l| ==> l[k] in ws
    ensures forall x :: x in Select(l, ws, p) <==> x in l && ws[x].priority == p
    ensures NoDup(Select(l, ws, p))
    decreases |l|
  {
    if l != [] {
      var l', x := l[..|l| - 1], l[|l| - 1];
      SelectFacts(l', ws, p);
      assert l == l' + [x];
      var d := Select(l', ws, p);
      if ws[x].priority == p && x !in d {
        forall i, j | 0 <= i < j < |d + [x]| ensures (d + [x])[i] != (d + [x])[j] {
          if j == |d| { assert (d + [x])[i] == d[i] && d[i] in d; }
        }
      }
    }
  }

  /** The callbacks of the watchers of `l`, grouped by priority level `0 .. n - 1`. */
  function Groups(l: seq<Id>, ws: map<Id, Watcher>, n: nat): (r: seq<Effect>)
    requires forall k :: 0 <= k < |l| ==> l[k] in ws
    ensures forall k :: 0 <= k < |r| ==> r[k].Fire? && r[k].id in ws && ws[r[k].id].hasCb
    decreases n
  {
    if n == 0 then []
    else Groups(l, ws, n - 1) + FiredLevel(Select(l, ws, n - 1), ws)
  }

  /**
    One tick from state `s`: the before hooks are appended and everything queued is
    drained; the batch is flushed; the dispatched watchers `ready` and then the after
    hooks are appended to the emptied levels and drained again.
  */
  function TickTrace(s: Pend, befores: seq<Id>, afters: seq<Id>, ready: seq<Id>,
                     fds: seq<FdInfo>, batch: seq<nat>): (r: seq<Effect>)
    requires Known(s.queues, s.ws)
    requires Queueable(befores, s.ws, |s.queues|) && Queueable(ready + afters, s.ws, |s.queues|)
    requires InTable(batch, |fds|) && HeadsKnown(fds, s.ws)
  {
    EnqueueAllKnown(s, befores);
    var s1 := EnqueueAll(s, befores);
    var s2 := Pend(Empties(|s.queues|), ZeroPendpos(s1.ws));
    QueueableSameBut(ready + afters, s.ws, s2.ws, |s.queues|);
    EnqueueAllKnown(s2, ready + afters);
    var s3 := EnqueueAll(s2, ready + afters);
    var first, second := Fired(s1.queues, s1.ws), Fired(s3.queues, s3.ws);
    first + Flush(fds, batch, s.ws).log + second
  }

  /**
    The tick as `evt_loop_run` performs it: append the before hooks (`s1`), drain, flush
    with the drained records, append the dispatched watchers (`s2`) and then the after
    hooks (`s3`), drain again. The effects of these steps, in order, are `TickTrace`;
    the flush sees the same masks as with the records the tick started from, and the
    records end as the tick's start with every `pendpos` cleared.
  */
  lemma TickSteps(s: Pend, befores: seq<Id>, afters: seq<Id>, ready: seq<Id>, fds: seq<FdInfo>, batch: seq<nat>,
                  s1: Pend, s2: Pend, s3: Pend)
    requires Known(s.queues, s.ws)
    requires Queueable(befores, s.ws, |s.queues|) && Queueable(ready, s.ws, |s.queues|)
    requires Queueable(afters, s.ws, |s.queues|)
    requires InTable(batch, |fds|) && HeadsKnown(fds, s.ws)
    requires s1 == EnqueueAll(s, befores)
    requires Queueable(ready, ZeroPendpos(s1.ws), |s.queues|)
    requires s2 == EnqueueAll(Pend(Empties(|s.queues|), ZeroPendpos(s1.ws)), ready)
    requires Queueable(afters, s2.ws, |s.queues|)
    requires s3 == EnqueueAll(s2, afters)
    ensures Known(s1.queues, s1.ws) && Known(s3.queues, s3.ws)
    ensures SameBut(s.ws, s1.ws) && SameBut(s.ws, s3.ws)
    ensures HeadsKnown(fds, ZeroPendpos(s1.ws))
    ensures Flush(fds, batch, ZeroPendpos(s1.ws)) == Flush(fds, batch, s.ws)
    ensures ZeroPendpos(s3.ws) == ZeroPendpos(s.ws)
    ensures Queueable(ready + afters, s.ws, |s.queues|)
    ensures Fired(s1.queues, s1.ws) + Flush(fds, batch, ZeroPendpos(s1.ws)).log + Fired(s3.queues, s3.ws)
         == TickTrace(s, befores, afters, ready, fds, batch)
  {
    var n := |s.queues|;
    EnqueueAllKnown(s, befores);
    var s0 := Pend(Empties(n), ZeroPendpos(s1.ws));
    ZeroPendposSameBut(s.ws, s1.ws);
    QueueableSameBut(afters, s.ws, s0.ws, n);
    EnqueueAllConcat(s0, ready, afters);
    QueueableConcat(ready, afters, s.ws, n);
    EnqueueAllKnown(s0, ready + afters);
    FlushSameBut(fds, batch, s.ws, s0.ws);
    ZeroPendposSameBut(s.ws, s3.ws);
  }

  lemma QueueableConcat(a: seq<Id>, b: seq<Id>, ws: map<Id, Watcher>, n: nat)
    requires Queueable(a, ws, n) && Queueable(b, ws, n)
    ensures Queueable(a + b, ws, n)
  {
    forall k | 0 <= k < |a + b| ensures (a + b)[k] in ws && (a + b)[k] != EmptyEv && 0 <= ws[(a + b)[k]].priority < n {
      if k < |a| {
        assert (a + b)[k] == a[k];
      } else {
        assert (a + b)[k] == b[k - |a|];
      }
    }
  }

  lemma ConcatDropLast(a: seq<Id>, b: seq<Id>)
    requires b != []
    ensures (a + b)[..|a + b| - 1] == a + b[..|b| - 1]
    ensures (a + b)[|a + b| - 1] == b[|b| - 1]
  {
    var c, d := (a + b)[..|a + b| - 1], a + b[..|b| - 1];
    assert forall k :: 0 <= k < |c| ==> c[k] == d[k];
  }

  /** Appending `a` and then `b` is appending `a + b`. */
  lemma {:induction false} EnqueueAllConcat(s: Pend, a: seq<Id>, b: seq<Id>)
    requires Queueable(a, s.ws, |s.queues|) && Queueable(b, s.ws, |s.queues|)
    ensures Queueable(a + b, s.ws, |s.queues|)
    ensures Queueable(b, EnqueueAll(s, a).ws, |s.queues|)
    ensures EnqueueAll(s, a + b) == EnqueueAll(EnqueueAll(s, a), b)
    decreases |b|
  {
    var s1 := EnqueueAll(s, a);
    QueueableSameBut(b, s.ws, s1.ws, |s.queues|);
    QueueableConcat(a, b, s.ws, |s.queues|);
    if b == [] {
      assert a + b == a;
    } else {
      var b' := b[..|b| - 1];
      assert Queueable(b', s.ws, |s.queues|) by {
        assert forall k :: 0 <= k < |b'| ==> b'[k] == b[k];
      }
      EnqueueAllConcat(s, a, b');
      ConcatDropLast(a, b);
      EnqueueAllLast(s, a + b);
      EnqueueAllLast(s1, b);
    }
  }


  /**
    Appending `l` to empty levels queues, at each level `p`, exactly the watchers of `l`
    with priority `p` in order of first appearance: a repeated entry is not queued again.
  */
  lemma {:induction false} EnqueueAllFromIdle(s: Pend, l: seq<Id>)
    requires Consistent(s.queues, s.ws) && forall i :: 0 <= i < |s.queues| ==> s.queues[i] == []
    requires Queueable(l, s.ws, |s.queues|)
    ensures Consistent(EnqueueAll(s, l).queues, EnqueueAll(s, l).ws)
    ensures forall p :: 0 <= p < |s.queues| ==> EnqueueAll(s, l).queues[p] == Select(l, s.ws, p)
    ensures forall x :: x in s.ws ==> (EnqueueAll(s, l).ws[x].pendpos > 0 <==> x in l)
    decreases |l|
  {
    if l == [] {
      forall x | x in s.ws ensures s.ws[x].pendpos == 0 {
        assert s.ws[x].pendpos > 0 ==> InSlot(s.queues, x, s.ws[x].priority, s.ws[x].pendpos);
      }
    } else {
      var l' := l[..|l| - 1];
      var x := l[|l| - 1];
      assert forall y :: y in l <==> y in l' || y == x;
      EnqueueAllFromIdle(s, l');
      var prev := EnqueueAll(s, l');
      var r := Enqueue(prev, x);
      assert EnqueueAll(s, l) == r;
      var p0 := s.ws[x].priority;
      assert prev.ws[x].priority == p0 by {
        assert prev.ws[x].(pendpos := 0) == s.ws[x].(pendpos := 0);
      }
      EnqueueKeepsConsistent(prev, x);
      EnqueueLands(prev, x);
      IdleSelectStep(s, l, prev);
      forall y | y in s.ws ensures r.ws[y].pendpos > 0 <==> y in l {
        if y != x {
          assert r.ws[y] == prev.ws[y];
        }
      }
    }
  }

  /** Appending the last entry of `l` extends each level's `Select` of the rest of `l` by it, if it is new. */
  lemma IdleSelectStep(s: Pend, l: seq<Id>, prev: Pend)
    requires l != [] && Queueable(l, s.ws, |s.queues|)
    requires |prev.queues| == |s.queues| && SameBut(s.ws, prev.ws)
    requires forall p :: 0 <= p < |s.queues| ==> prev.queues[p] == Select(l[..|l| - 1], s.ws, p)
    requires prev.ws[l[|l| - 1]].pendpos > 0 <==> l[|l| - 1] in l[..|l| - 1]
    ensures forall p :: 0 <= p < |s.queues| ==> Enqueue(prev, l[|l| - 1]).queues[p] == Select(l, s.ws, p)
  {
    forall p | 0 <= p < |s.queues| ensures Enqueue(prev, l[|l| - 1]).queues[p] == Select(l, s.ws, p) {
      IdleSelectLevel(s, l, prev, p);
    }
  }

  /** `IdleSelectStep` at one level `p`. */
  lemma IdleSelectLevel(s: Pend, l: seq<Id>, prev: Pend, p: nat)
    requires l != [] && Queueable(l, s.ws, |s.queues|)
    requires |prev.queues| == |s.queues| && SameBut(s.ws, prev.ws) && p < |s.queues|
    requires prev.queues[p] == Select(l[..|l| - 1], s.ws, p)
    requires prev.ws[l[|l| - 1]].pendpos > 0 <==> l[|l| - 1] in l[..|l| - 1]
    ensures Enqueue(prev, l[|l| - 1]).queues[p] == Select(l, s.ws, p)
  {
    var l', x := l[..|l| - 1], l[|l| - 1];
    assert forall k :: 0 <= k < |l'| ==> l'[k] == l[k];
    var r := Enqueue(prev, x);
    var p0 := s.ws[x].priority;
    assert prev.ws[x].priority == p0 by {
      assert prev.ws[x].(pendpos := 0) == s.ws[x].(pendpos := 0);
    }
    var d := Select(l', s.ws, p);
    SelectFacts(l', s.ws, p);
    assert Select(l, s.ws, p) == if p0 == p && x !in d then d + [x] else d;
    if x in l' {
      assert r == prev;
      assert p0 == p ==> x in d;
    } else {
      assert x !in d;
    }
  }

  /** `FiredLevel` reads only callbacks, which a change of `pendpos` keeps. */
  lemma {:induction false} FiredLevelSameBut(q: seq<Id>, ws: map<Id, Watcher>, ws': map<Id, Watcher>)
    requires forall j :: 0 <= j < |q| ==> q[j] in ws
    requires SameBut(ws, ws')
    ensures FiredLevel(q, ws) == FiredLevel(q, ws')
    decreases |q|
  {
    if q != [] {
      FiredLevelSameBut(q[..|q| - 1], ws, ws');
      var x := q[|q| - 1];
      assert ws'[x].(pendpos := 0) == ws[x].(pendpos := 0);
    }
  }

  lemma {:induction false} SelectSameBut(l: seq<Id>, ws: map<Id, Watcher>, ws': map<Id, Watcher>, p: int)
    requires forall k :: 0 <= k < |l| ==> l[k] in ws
    requires SameBut(ws, ws')
    ensures Select(l, ws, p) == Select(l, ws', p)
    decreases |l|
  {
    if l != [] {
      SelectSameBut(l[..|l| - 1], ws, ws', p);
      var x := l[|l| - 1];
      assert ws'[x].(pendpos := 0) == ws[x].(pendpos := 0);
    }
  }

  /** Draining levels that hold `Select(l, ws, p)` at each level `p` runs `Groups(l, ws, n)`. */
  lemma {:induction false} FiredGroups(qs: Queues, ws: map<Id, Watcher>, ws': map<Id, Watcher>, l: seq<Id>)
    requires forall k :: 0 <= k < |l| ==> l[k] in ws
    requires SameBut(ws, ws') && Known(qs, ws')
    requires forall p :: 0 <= p < |qs| ==> qs[p] == Select(l, ws, p)
    ensures Fired(qs, ws') == Groups(l, ws, |qs|)
    decreases |qs|
  {
    if qs != [] {
      var n := |qs|;
      KnownSlice(qs, ws', 0, n - 1);
      assert qs[0..n - 1] == qs[..n - 1];
      FiredGroups(qs[..n - 1], ws, ws', l);
      FiredLevelSameBut(qs[n - 1], ws, ws');
    }
  }

  /**
    A tick that starts with nothing queued runs the before hooks level by level, then
    reports the flush's backend updates, then runs the dispatched watchers and the after
    hooks level by level, each watcher at most once per drain.
  */
  lemma TickFromIdle(s: Pend, befores: seq<Id>, afters: seq<Id>, ready: seq<Id>,
                     fds: seq<FdInfo>, batch: seq<nat>)
    requires Consistent(s.queues, s.ws) && forall i :: 0 <= i < |s.queues| ==> s.queues[i] == []
    requires Queueable(befores, s.ws, |s.queues|) && Queueable(ready + afters, s.ws, |s.queues|)
    requires InTable(batch, |fds|) && HeadsKnown(fds, s.ws)
    ensures TickTrace(s, befores, afters, ready, fds, batch) ==
      Groups(befores, s.ws, |s.queues|) + Flush(fds, batch, s.ws).log + Groups(ready + afters, s.ws, |s.queues|)
  {
    var n := |s.queues|;
    EnqueueAllFromIdle(s, befores);
    var s1 := EnqueueAll(s, befores);
    FiredGroups(s1.queues, s.ws, s1.ws, befores);
    var s2 := Pend(Empties(n), ZeroPendpos(s1.ws));
    assert SameBut(s.ws, s2.ws);
    DrainedConsistent(s1.ws, n);
    EnqueueAllFromIdle(s2, ready + afters);
    var s3 := EnqueueAll(s2, ready + afters);
    forall p | 0 <= p < n ensures s3.queues[p] == Select(ready + afters, s.ws, p) {
      SelectSameBut(ready + afters, s.ws, s2.ws, p);
    }
    FiredGroups(s3.queues, s.ws, s3.ws, ready + afters);
  }

  /** Every callback the level `p` of `Select` runs belongs to a watcher of priority `p`. */
  lemma SelectFiredLevel(l: seq<Id>, ws: map<Id, Watcher>, p: int)
    requires forall k :: 0 <= k < |l| ==> l[k] in ws
    ensures forall k :: 0 <= k < |FiredLevel(Select(l, ws, p), ws)| ==>
      ws[FiredLevel(Select(l, ws, p), ws)[k].id].priority == p
  {
    var sel := Select(l, ws, p);
    var f := FiredLevel(sel, ws);
    forall k | 0 <= k < |f| ensures ws[f[k].id].priority == p {
      var j :| 0 <= j < |sel| && sel[j] == f[k].id;
    }
  }

  /**
    Callbacks run in priority order: every callback belongs to one of the `n` levels, and
    nothing of a higher level runs before a lower one.
  */
  lemma {:induction false} GroupsSorted(l: seq<Id>, ws: map<Id, Watcher>, n: nat)
    requires forall k :: 0 <= k < |l| ==> l[k] in ws
    ensures forall k :: 0 <= k < |Groups(l, ws, n)| ==> 0 <= ws[Groups(l, ws, n)[k].id].priority < n
    ensures forall i, j :: 0 <= i < j < |Groups(l, ws, n)| ==>
      ws[Groups(l, ws, n)[i].id].priority <= ws[Groups(l, ws, n)[j].id].priority
    decreases n
  {
    if n > 0 {
      GroupsSorted(l, ws, n - 1);
      SelectFiredLevel(l, ws, n - 1);
      var g: seq<Effect> := Groups(l, ws, n - 1);
      var f: seq<Effect> := FiredLevel(Select(l, ws, n - 1), ws);
      var r: seq<Effect> := Groups(l, ws, n);
      assert r == g + f;
      assert forall k :: 0 <= k < |r| ==> r[k] == if k < |g| then g[k] else f[k - |g|];
    }
  }

  /** Level `p` of `Select` runs each watcher of `l` at that level with a callback once. */
  lemma SelectFiredCount(l: seq<Id>, ws: map<Id, Watcher>, p: int, x: Id, inl: bool)
    requires forall k :: 0 <= k < |l| ==> l[k] in ws
    requires x in ws && ws[x].hasCb && inl == (x in l)
    ensures multiset(FiredLevel(Select(l, ws, p), ws))[Fire(x)] == if inl && ws[x].priority == p then 1 else 0
  {
    var sel := Select(l, ws, p);
    FiredLevelCount(sel, ws, x);
    SelectFacts(l, ws, p);
    NoDupCount(sel, x);
  }

  /** One more level adds the count of `x` at that level to the count of the levels below. */
  lemma GroupsCountStep(l: seq<Id>, ws: map<Id, Watcher>, n: nat, x: Id, inl: bool)
    requires forall k :: 0 <= k < |l| ==> l[k] in ws
    requires x in ws && n > 0
    requires multiset(Groups(l, ws, n - 1))[Fire(x)] == if inl && 0 <= ws[x].priority < n - 1 then 1 else 0
    requires multiset(FiredLevel(Select(l, ws, n - 1), ws))[Fire(x)] == if inl && ws[x].priority == n - 1 then 1 else 0
    ensures multiset(Groups(l, ws, n))[Fire(x)] == if inl && 0 <= ws[x].priority < n then 1 else 0
  {
    CountConcat(Groups(l, ws, n - 1), FiredLevel(Select(l, ws, n - 1), ws), Fire(x));
  }

  /** `GroupsCount` by induction on the levels. */
  lemma {:induction false} GroupsCountIn(l: seq<Id>, ws: map<Id, Watcher>, n: nat, x: Id, inl: bool)
    requires forall k :: 0 <= k < |l| ==> l[k] in ws
    requires x in ws && ws[x].hasCb && inl == (x in l)
    ensures multiset(Groups(l, ws, n))[Fire(x)] == if inl && 0 <= ws[x].priority < n then 1 else 0
    decreases n
  {
    if n == 0 {
      assert Groups(l, ws, n) == [];
    } else {
      GroupsCountIn(l, ws, n - 1, x, inl);
      SelectFiredCount(l, ws, n - 1, x, inl);
      GroupsCountStep(l, ws, n, x, inl);
    }
  }

  /** Each watcher of `l` with a callback runs exactly once in `Groups`, and nothing else runs. */
  lemma GroupsCount(l: seq<Id>, ws: map<Id, Watcher>, n: nat, x: Id)
    requires forall k :: 0 <= k < |l| ==> l[k] in ws
    requires x in ws && ws[x].hasCb
    ensures multiset(Groups(l, ws, n))[Fire(x)] == if x in l && 0 <= ws[x].priority < n then 1 else 0
  {
    GroupsCountIn(l, ws, n, x, x in l);
  }
}
