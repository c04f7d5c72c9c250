/**
  The priority pending queues of the loop (`pending[pri]` with `pending_cnt[pri]`) and
  the `pendpos` token of every watcher, as values. Level `i` holds the unconsumed slots
  `0 .. pending_cnt[i] - 1` of `pending[i]`.
*/
module Pending {
  import opened Watchers

  type Queues = seq<seq<Id>>

  /** The queues together with the watcher records whose `pendpos` points into them. */
  datatype Pend = Pend(queues: Queues, ws: map<Id, Watcher>)

  /** Every unconsumed slot names a watcher. */
  predicate Known(qs: Queues, ws: map<Id, Watcher>)
  {
    forall i, j :: 0 <= i < |qs| && 0 <= j < |qs[i]| ==> qs[i][j] in ws
  }

  /** Slot `k - 1` (the 1-based `pendpos` `k`) of level `p` holds `id`. */
  predicate InSlot(qs: Queues, id: Id, p: int, k: nat)
  {
    0 <= p < |qs| && 0 < k <= |qs[p]| && qs[p][k - 1] == id
  }

  /**
    The bookkeeping invariant: the sentinel has no callback and is never queued itself;
    a slot holding a real watcher is that watcher's `pendpos` at its priority; and a
    watcher with `pendpos == k > 0` sits in slot `k - 1` of its priority level.
    So `pendpos == 0` exactly when the watcher is in no unconsumed slot.
  */
  predicate Consistent(qs: Queues, ws: map<Id, Watcher>)
  {
    && EmptyEv in ws && !ws[EmptyEv].hasCb && ws[EmptyEv].pendpos == 0
    && Known(qs, ws)
    && (forall i, j :: 0 <= i < |qs| && 0 <= j < |qs[i]| && qs[i][j] != EmptyEv ==>
          ws[qs[i][j]].priority == i && ws[qs[i][j]].pendpos == j + 1)
    && (forall w {:trigger ws[w].pendpos} :: w in ws && ws[w].pendpos > 0 ==> InSlot(qs, w, ws[w].priority, ws[w].pendpos))
  }

  /** The unconsumed part of each level's storage. */
  function Live(storage: seq<seq<Id>>, cnt: seq<nat>): (qs: Queues)
    requires |storage| == |cnt|
    requires forall i :: 0 <= i < |cnt| ==> cnt[i] <= |storage[i]|
    ensures |qs| == |cnt|
    ensures forall i :: 0 <= i < |cnt| ==> qs[i] == storage[i][..cnt[i]]
  {
    seq(|cnt|, i requires 0 <= i < |cnt| => storage[i][..cnt[i]])
  }

  /** `evt_append_pending`: queue `w` at the tail of its level unless its `pendpos` is set. */
  function Enqueue(s: Pend, w: Id): (r: Pend)
    requires w in s.ws && 0 <= s.ws[w].priority < |s.queues|
    ensures |r.queues| == |s.queues| && r.ws.Keys == s.ws.Keys
    ensures r.ws[w].pendpos > 0
    ensures r.ws[w].(pendpos := 0) == s.ws[w].(pendpos := 0)
    ensures forall x :: x in s.ws && x != w ==> r.ws[x] == s.ws[x]
    ensures Known(s.queues, s.ws) ==> Known(r.queues, r.ws)
  {
    if s.ws[w].pendpos != 0 then s
    else
      var p := s.ws[w].priority;
      Pend(s.queues[p := s.queues[p] + [w]], s.ws[w := s.ws[w].(pendpos := |s.queues[p]| + 1)])
  }

  /** Appending every watcher of `l` in turn, as the loop does for its hook lists. */
  function EnqueueAll(s: Pend, l: seq<Id>): (r: Pend)
    requires forall k :: 0 <= k < |l| ==> l[k] in s.ws && 0 <= s.ws[l[k]].priority < |s.queues|
    ensures |r.queues| == |s.queues| && SameBut(s.ws, r.ws)
    decreases |l|
  {
    if l == [] then s
    else
      var prev := EnqueueAll(s, l[..|l| - 1]);
      var x := l[|l| - 1];
      assert forall k :: 0 <= k < |l| - 1 ==> l[..|l| - 1][k] == l[k];
      Enqueue(prev, x)
  }

  /** A non-empty list is appended by appending all but its last element, then the last. */
  lemma EnqueueAllLast(s: Pend, l: seq<Id>)
    requires l != []
    requires forall k :: 0 <= k < |l| ==> l[k] in s.ws && 0 <= s.ws[l[k]].priority < |s.queues|
    ensures EnqueueAll(s, l) == Enqueue(EnqueueAll(s, l[..|l| - 1]), l[|l| - 1])
  {
  }

  /** Appending the first `k + 1` entries is appending the first `k` and then entry `k`. */
  lemma EnqueueAllPrefix(s: Pend, l: seq<Id>, k: nat)
    requires k < |l|
    requires forall j :: 0 <= j < |l| ==> l[j] in s.ws && 0 <= s.ws[l[j]].priority < |s.queues|
    ensures EnqueueAll(s, l[..k + 1]) == Enqueue(EnqueueAll(s, l[..k]), l[k])
  {
    var m := l[..k + 1];
    assert m[..|m| - 1] == l[..k] && m[|m| - 1] == l[k];
    EnqueueAllLast(s, m);
  }

  /** Appending a list queues every watcher of it and touches no other watcher's record. */
  lemma EnqueueAllFacts(s: Pend, l: seq<Id>)
    requires forall k :: 0 <= k < |l| ==> l[k] in s.ws && 0 <= s.ws[l[k]].priority < |s.queues|
    ensures forall x :: x in s.ws && x !in l ==> EnqueueAll(s, l).ws[x] == s.ws[x]
    ensures forall k :: 0 <= k < |l| ==> EnqueueAll(s, l).ws[l[k]].pendpos > 0
  {
    forall x | x in s.ws && x !in l ensures EnqueueAll(s, l).ws[x] == s.ws[x] {
      EnqueueAllOther(s, l, x);
    }
    forall k | 0 <= k < |l| ensures EnqueueAll(s, l).ws[l[k]].pendpos > 0 {
      EnqueueAllQueued(s, l, k);
    }
  }

  /** A watcher not in the list keeps its record. */
  lemma {:induction false} EnqueueAllOther(s: Pend, l: seq<Id>, x: Id)
    requires forall k :: 0 <= k < |l| ==> l[k] in s.ws && 0 <= s.ws[l[k]].priority < |s.queues|
    requires x in s.ws && x !in l
    ensures EnqueueAll(s, l).ws[x] == s.ws[x]
    decreases |l|
  {
    if l != [] {
      var l' := l[..|l| - 1];
      assert forall j :: 0 <= j < |l'| ==> l'[j] == l[j];
      EnqueueAllOther(s, l', x);
      EnqueueAllLast(s, l);
    }
  }

  /** Entry `k` of the list is queued once the list is appended. */
  lemma {:induction false} EnqueueAllQueued(s: Pend, l: seq<Id>, k: nat)
    requires forall j :: 0 <= j < |l| ==> l[j] in s.ws && 0 <= s.ws[l[j]].priority < |s.queues|
    requires k < |l|
    ensures EnqueueAll(s, l).ws[l[k]].pendpos > 0
    decreases |l|
  {
    var l' := l[..|l| - 1];
    EnqueueAllLast(s, l);
    if k < |l| - 1 {
      EnqueueAllQueued(s, l', k);
      assert l'[k] == l[k];
    }
  }

  /** Appending keeps every slot naming a known watcher. */
  lemma {:induction false} EnqueueAllKnown(s: Pend, l: seq<Id>)
    requires forall k :: 0 <= k < |l| ==> l[k] in s.ws && 0 <= s.ws[l[k]].priority < |s.queues|
    requires Known(s.queues, s.ws)
    ensures Known(EnqueueAll(s, l).queues, EnqueueAll(s, l).ws)
    decreases |l|
  {
    if l != [] {
      EnqueueAllKnown(s, l[..|l| - 1]);
    }
  }

  /** Appending keeps the bookkeeping invariant. */
  lemma EnqueueKeepsConsistent(s: Pend, w: Id)
    requires Consistent(s.queues, s.ws)
    requires w in s.ws && w != EmptyEv && 0 <= s.ws[w].priority < |s.queues|
    ensures Consistent(Enqueue(s, w).queues, Enqueue(s, w).ws)
  {
    var r := Enqueue(s, w);
    if s.ws[w].pendpos == 0 {
      var p := s.ws[w].priority;
      forall i, j | 0 <= i < |r.queues| && 0 <= j < |r.queues[i]| && r.queues[i][j] != EmptyEv
        ensures r.ws[r.queues[i][j]].priority == i && r.ws[r.queues[i][j]].pendpos == j + 1
      {
        if i == p && j == |s.queues[p]| {
          assert r.queues[i][j] == w;
        } else {
          assert r.queues[i][j] == s.queues[i][j];
          assert s.queues[i][j] != w;
        }
      }
      forall x | x in r.ws && r.ws[x].pendpos > 0
        ensures InSlot(r.queues, x, r.ws[x].priority, r.ws[x].pendpos)
      {
        if x != w {
          assert InSlot(s.queues, x, s.ws[x].priority, s.ws[x].pendpos);
          var q, k := s.ws[x].priority, s.ws[x].pendpos;
          assert r.queues[q][k - 1] == s.queues[q][k - 1];
        }
      }
    }
  }

  /**
    After an append the watcher is queued; appending a queued watcher changes nothing
    (so appending twice is appending once); appending an unqueued one puts it at index
    `old_cnt` of its level, makes its `pendpos` `old_cnt + 1`, grows that level by one
    and leaves every other slot and level as it was.
  */
  lemma EnqueueLands(s: Pend, w: Id)
    requires Consistent(s.queues, s.ws)
    requires w in s.ws && w != EmptyEv && 0 <= s.ws[w].priority < |s.queues|
    ensures InSlot(Enqueue(s, w).queues, w, s.ws[w].priority, Enqueue(s, w).ws[w].pendpos)
    ensures Enqueue(Enqueue(s, w), w) == Enqueue(s, w)
    ensures s.ws[w].pendpos != 0 ==> Enqueue(s, w) == s
    ensures s.ws[w].pendpos == 0 ==>
      var p, r := s.ws[w].priority, Enqueue(s, w);
      && r.ws[w].pendpos == |s.queues[p]| + 1
      && |r.queues[p]| == |s.queues[p]| + 1
      && r.queues[p][|s.queues[p]|] == w
      && r.queues[p][..|s.queues[p]|] == s.queues[p]
      && forall i :: 0 <= i < |s.queues| && i != p ==> r.queues[i] == s.queues[i]
  {
    if s.ws[w].pendpos == 0 {
      var p := s.ws[w].priority;
      assert (s.queues[p] + [w])[..|s.queues[p]|] == s.queues[p];
    }
  }

  /**
    The purge of the stop functions: a queued watcher's slot gets the sentinel and its
    `pendpos` is cleared; nothing is compacted.
  */
  function Purged(s: Pend, w: Id): (r: Pend)
    requires w in s.ws
    requires s.ws[w].pendpos > 0 ==>
      0 <= s.ws[w].priority < |s.queues| && s.ws[w].pendpos <= |s.queues[s.ws[w].priority]|
    ensures |r.queues| == |s.queues| && r.ws.Keys == s.ws.Keys
    ensures forall i :: 0 <= i < |s.queues| ==> |r.queues[i]| == |s.queues[i]|
    ensures r.ws[w].pendpos == 0 && r.ws[w].(pendpos := 0) == s.ws[w].(pendpos := 0)
    ensures forall x :: x in s.ws && x != w ==> r.ws[x] == s.ws[x]
  {
    if s.ws[w].pendpos == 0 then s
    else
      var p, k := s.ws[w].priority, s.ws[w].pendpos;
      var slot: seq<Id> := s.queues[p][k - 1 := EmptyEv];
      Pend(s.queues[p := slot], s.ws[w := s.ws[w].(pendpos := 0)])
  }

  /**
    Purging keeps the invariant and leaves `w` in no unconsumed slot, while every slot
    other than `w`'s old one keeps its content.
  */
  lemma PurgeRemoves(s: Pend, w: Id)
    requires Consistent(s.queues, s.ws)
    requires w in s.ws && w != EmptyEv
    ensures Consistent(Purged(s, w).queues, Purged(s, w).ws)
    ensures forall i, j :: 0 <= i < |s.queues| && 0 <= j < |s.queues[i]| ==>
      Purged(s, w).queues[i][j] == (if s.queues[i][j] == w then EmptyEv else s.queues[i][j])
  {
    var r := Purged(s, w);
    if s.ws[w].pendpos > 0 {
      var p, k := s.ws[w].priority, s.ws[w].pendpos;
      assert InSlot(s.queues, w, p, k);
      forall i, j | 0 <= i < |s.queues| && 0 <= j < |s.queues[i]|
        ensures r.queues[i][j] == (if s.queues[i][j] == w then EmptyEv else s.queues[i][j])
      {
        if s.queues[i][j] == w {
          assert i == p && j == k - 1;
        }
      }
      forall x | x in r.ws && r.ws[x].pendpos > 0
        ensures InSlot(r.queues, x, r.ws[x].priority, r.ws[x].pendpos)
      {
        assert InSlot(s.queues, x, s.ws[x].priority, s.ws[x].pendpos);
      }
    }
  }

  /** The callbacks one drained level runs: its slots in index order, skipping NULL callbacks. */
  function FiredLevel(q: seq<Id>, ws: map<Id, Watcher>): (r: seq<Effect>)
    requires forall j :: 0 <= j < |q| ==> q[j] in ws
    ensures forall k :: 0 <= k < |r| ==> r[k].Fire? && r[k].id in q && r[k].id in ws && ws[r[k].id].hasCb
    decreases |q|
  {
    if q == [] then []
    else
      var x := q[|q| - 1];
      FiredLevel(q[..|q| - 1], ws) + if ws[x].hasCb then [Fire(x)] else []
  }

  /** The callbacks a drain runs: level 0 first, then each following level. */
  function Fired(qs: Queues, ws: map<Id, Watcher>): (r: seq<Effect>)
    requires Known(qs, ws)
    ensures forall k :: 0 <= k < |r| ==> r[k].Fire? && r[k].id in ws && ws[r[k].id].hasCb
    decreases |qs|
  {
    if qs == [] then []
    else
      assert Known(qs[..|qs| - 1], ws);
      Fired(qs[..|qs| - 1], ws) + FiredLevel(qs[|qs| - 1], ws)
  }

  /** Draining the first `j + 1` slots of a level runs the first `j` and then slot `j`. */
  lemma FiredLevelPrefix(q: seq<Id>, ws: map<Id, Watcher>, j: nat)
    requires j < |q| && forall k :: 0 <= k < |q| ==> q[k] in ws
    ensures FiredLevel(q[..j + 1], ws) == FiredLevel(q[..j], ws) + if ws[q[j]].hasCb then [Fire(q[j])] else []
  {
    var m := q[..j + 1];
    assert m[..|m| - 1] == q[..j] && m[|m| - 1] == q[j];
  }

  /** Draining the first `i + 1` levels runs the first `i` and then level `i`. */
  lemma FiredPrefix(qs: Queues, ws: map<Id, Watcher>, i: nat)
    requires i < |qs| && Known(qs, ws)
    ensures Known(qs[..i], ws) && Known(qs[..i + 1], ws)
    ensures Fired(qs[..i + 1], ws) == Fired(qs[..i], ws) + FiredLevel(qs[i], ws)
  {
    KnownSlice(qs, ws, 0, i);
    KnownSlice(qs, ws, 0, i + 1);
    assert qs[0..i] == qs[..i] && qs[0..i + 1] == qs[..i + 1];
    var m := qs[..i + 1];
    assert m[..|m| - 1] == qs[..i] && m[|m| - 1] == qs[i];
  }

  /** Within a level, earlier slots fire before later ones. */
  lemma {:induction false} FiredLevelConcat(a: seq<Id>, b: seq<Id>, ws: map<Id, Watcher>)
    requires forall j :: 0 <= j < |a| ==> a[j] in ws
    requires forall j :: 0 <= j < |b| ==> b[j] in ws
    ensures FiredLevel(a + b, ws) == FiredLevel(a, ws) + FiredLevel(b, ws)
    decreases |b|
  {
    if b != [] {
      var b' := b[..|b| - 1];
      assert (a + b)[..|a + b| - 1] == a + b';
      FiredLevelConcat(a, b', ws);
    } else {
      assert a + b == a;
    }
  }

  /** A watcher fires in a level exactly when it has a slot there and a callback. */
  lemma {:induction false} FiredLevelMember(q: seq<Id>, ws: map<Id, Watcher>, x: Id)
    requires forall j :: 0 <= j < |q| ==> q[j] in ws
    ensures Fire(x) in FiredLevel(q, ws) <==> x in q && x in ws && ws[x].hasCb
    decreases |q|
  {
    if q != [] {
      FiredLevelMember(q[..|q| - 1], ws, x);
      assert q == q[..|q| - 1] + [q[|q| - 1]];
    }
  }

  /** Every run of consecutive levels of known queues is known. */
  lemma KnownSlice(qs: Queues, ws: map<Id, Watcher>, lo: nat, hi: nat)
    requires Known(qs, ws) && lo <= hi <= |qs|
    ensures Known(qs[lo..hi], ws)
  {
    forall a, b | 0 <= a < hi - lo && 0 <= b < |qs[lo..hi][a]| ensures qs[lo..hi][a][b] in ws {
      assert qs[lo..hi][a] == qs[lo + a];
    }
  }

  /** Draining consecutive groups of levels runs the first group's callbacks first. */
  lemma {:induction false} FiredConcat(a: Queues, b: Queues, ws: map<Id, Watcher>)
    requires Known(a, ws) && Known(b, ws)
    ensures Known(a + b, ws)
    ensures Fired(a + b, ws) == Fired(a, ws) + Fired(b, ws)
    decreases |b|
  {
    assert Known(a + b, ws) by {
      forall i, j | 0 <= i < |a + b| && 0 <= j < |(a + b)[i]| ensures (a + b)[i][j] in ws {
        if i >= |a| { assert (a + b)[i] == b[i - |a|]; }
      }
    }
    if b != [] {
      var b' := b[..|b| - 1];
      assert (a + b)[..|a + b| - 1] == a + b';
      assert Known(b', ws);
      FiredConcat(a, b', ws);
    } else {
      assert a + b == a;
    }
  }

  /**
    Drain order: every callback of the levels below `i` runs before those of level `i`,
    which run before every callback of the levels above `i`.
  */
  lemma FiredSplit(qs: Queues, ws: map<Id, Watcher>, i: nat)
    requires Known(qs, ws) && i < |qs|
    ensures Known(qs[..i], ws) && Known(qs[i + 1..], ws)
    ensures Fired(qs, ws) == Fired(qs[..i], ws) + FiredLevel(qs[i], ws) + Fired(qs[i + 1..], ws)
  {
    KnownSlice(qs, ws, 0, i);
    KnownSlice(qs, ws, i + 1, |qs|);
    KnownSlice(qs, ws, 0, i + 1);
    assert qs[0..i] == qs[..i] && qs[0..i + 1] == qs[..i + 1] && qs[i + 1..|qs|] == qs[i + 1..];
    assert qs[..i + 1] == qs[..i] + [qs[i]];
    assert qs == qs[..i + 1] + qs[i + 1..];
    FiredConcat(qs[..i + 1], qs[i + 1..], ws);
    assert (qs[..i + 1])[..i] == qs[..i];
  }

  /** A level in which `w` sits in slot `k` only counts `w` once. */
  lemma CountOnce(q: seq<Id>, w: Id, k: nat)
    requires k < |q| && q[k] == w
    requires forall j :: 0 <= j < |q| && q[j] == w ==> j == k
    ensures multiset(q)[w] == 1
  {
    assert q == q[..k] + [w] + q[k + 1..];
    assert w !in q[..k];
    assert w !in q[k + 1..];
  }

  /** A level fires a watcher with a callback as often as the watcher has slots there. */
  lemma {:induction false} FiredLevelCount(q: seq<Id>, ws: map<Id, Watcher>, w: Id)
    requires forall j :: 0 <= j < |q| ==> q[j] in ws
    requires w in ws && ws[w].hasCb
    ensures multiset(FiredLevel(q, ws))[Fire(w)] == multiset(q)[w]
    decreases |q|
  {
    if q != [] {
      var q', x := q[..|q| - 1], q[|q| - 1];
      FiredLevelCount(q', ws, w);
      var f' := FiredLevel(q', ws);
      assert q == q' + [x];
      assert multiset(q) == multiset(q') + multiset{x};
      if ws[x].hasCb {
        assert FiredLevel(q, ws) == f' + [Fire(x)];
        assert multiset(f' + [Fire(x)]) == multiset(f') + multiset{Fire(x)};
      } else {
        assert FiredLevel(q, ws) == f';
      }
    }
  }

  /** Counting in a concatenation adds the counts of its parts. */
  lemma CountConcat(a: seq<Effect>, b: seq<Effect>, e: Effect)
    ensures multiset(a + b)[e] == multiset(a)[e] + multiset(b)[e]
  {
  }

  /**
    Exactly once: under the invariant, a drain runs a watcher with a callback once if it
    is queued (`pendpos > 0`) and not at all otherwise. The sentinel never fires.
  */
  lemma FiredOnce(qs: Queues, ws: map<Id, Watcher>, w: Id)
    requires Consistent(qs, ws)
    requires w in ws && w != EmptyEv && ws[w].hasCb
    ensures multiset(Fired(qs, ws))[Fire(w)] == if ws[w].pendpos > 0 then 1 else 0
    ensures Fire(EmptyEv) !in Fired(qs, ws)
  {
    forall i | 0 <= i < |qs|
      ensures multiset(qs[i])[w] == if ws[w].pendpos > 0 && ws[w].priority == i then 1 else 0
    {
      LevelCount(qs, ws, w, i);
    }
    FiredOncePrefix(qs, ws, w, |qs|);
    assert qs[..|qs|] == qs;
  }

  /** `FiredOnce` by induction on the levels, given how often each level holds `w`. */
  lemma {:induction false} FiredOncePrefix(qs: Queues, ws: map<Id, Watcher>, w: Id, n: nat)
    requires Known(qs, ws) && n <= |qs|
    requires w in ws && ws[w].hasCb
    requires forall i :: 0 <= i < |qs| ==>
      multiset(qs[i])[w] == if ws[w].pendpos > 0 && ws[w].priority == i then 1 else 0
    ensures multiset(Fired(qs[..n], ws))[Fire(w)] ==
      if ws[w].pendpos > 0 && 0 <= ws[w].priority < n then 1 else 0
    decreases n
  {
    if n == 0 {
      assert qs[..0] == [];
    } else {
      FiredOncePrefix(qs, ws, w, n - 1);
      FiredPrefix(qs, ws, n - 1);
      FiredLevelCount(qs[n - 1], ws, w);
      CountConcat(Fired(qs[..n - 1], ws), FiredLevel(qs[n - 1], ws), Fire(w));
      assert multiset(qs[n - 1])[w] == if ws[w].pendpos > 0 && ws[w].priority == n - 1 then 1 else 0;
      assert Fired(qs[..n], ws) == Fired(qs[..n - 1], ws) + FiredLevel(qs[n - 1], ws);
    }
  }

  /** Under the invariant, a level holds `w` once if `w` is queued at that level, else never. */
  lemma LevelCount(qs: Queues, ws: map<Id, Watcher>, w: Id, i: nat)
    requires Consistent(qs, ws) && i < |qs|
    requires w in ws && w != EmptyEv
    ensures multiset(qs[i])[w] == if ws[w].pendpos > 0 && ws[w].priority == i then 1 else 0
  {
    var q := qs[i];
    if ws[w].pendpos > 0 && ws[w].priority == i {
      assert InSlot(qs, w, ws[w].priority, ws[w].pendpos);
      forall j | 0 <= j < |q| && q[j] == w ensures j == ws[w].pendpos - 1 {
        assert ws[q[j]].pendpos == j + 1;
      }
      CountOnce(q, w, ws[w].pendpos - 1);
    } else {
      assert forall j :: 0 <= j < |q| ==> q[j] != w;
      assert w !in q;
    }
  }

  /** The watcher records after a drain: every `pendpos` cleared, nothing else touched. */
  function ZeroPendpos(ws: map<Id, Watcher>): (r: map<Id, Watcher>)
    ensures r.Keys == ws.Keys
    ensures forall x :: x in ws ==> r[x].pendpos == 0 && r[x].(pendpos := ws[x].pendpos) == ws[x]
  {
    map x | x in ws :: ws[x].(pendpos := 0)
  }

  /** `n` levels with no unconsumed slot, as every `pending_cnt[i] = 0` leaves them. */
  function Empties(n: nat): (qs: Queues)
    ensures |qs| == n && forall i :: 0 <= i < n ==> qs[i] == []
  {
    seq(n, _ => [])
  }

  /** The state a drain leaves satisfies the invariant again. */
  lemma DrainedConsistent(ws: map<Id, Watcher>, n: nat)
    requires EmptyEv in ws && !ws[EmptyEv].hasCb
    ensures Consistent(Empties(n), ZeroPendpos(ws))
  {
  }

  /**
    Changing the record of a real watcher keeps the invariant when its callback and its
    `pendpos` stay, and so does its priority while it is queued.
  */
  lemma ConsistentUpdate(qs: Queues, ws: map<Id, Watcher>, w: Id, v: Watcher)
    requires Consistent(qs, ws) && w in ws && w != EmptyEv
    requires v.pendpos == ws[w].pendpos
    requires ws[w].pendpos > 0 ==> v.priority == ws[w].priority
    ensures Consistent(qs, ws[w := v])
  {
    var ws' := ws[w := v];
    forall i, j | 0 <= i < |qs| && 0 <= j < |qs[i]| && qs[i][j] != EmptyEv
      ensures ws'[qs[i][j]].priority == i && ws'[qs[i][j]].pendpos == j + 1
    {
      assert ws[qs[i][j]].pendpos == j + 1;
    }
  }

  /** A new watcher that is not queued can join the records. */
  lemma ConsistentFresh(qs: Queues, ws: map<Id, Watcher>, w: Id, v: Watcher)
    requires Consistent(qs, ws) && w !in ws && v.pendpos == 0
    ensures Consistent(qs, ws[w := v])
  {
  }

  /** During a drain at level `i`, slot `j`: whether watcher record `w` has already been consumed. */
  predicate Done(w: Watcher, i: nat, j: nat)
  {
    w.pendpos > 0 && 0 <= w.priority && (w.priority < i || (w.priority == i && w.pendpos <= j))
  }

  /** The records part way through a drain: consumed watchers have `pendpos` 0, the rest are untouched. */
  function Drained(ws: map<Id, Watcher>, i: nat, j: nat): (r: map<Id, Watcher>)
    ensures r.Keys == ws.Keys && SameBut(ws, r)
  {
    map x | x in ws :: if Done(ws[x], i, j) then ws[x].(pendpos := 0) else ws[x]
  }

  lemma DrainedStart(ws: map<Id, Watcher>)
    ensures Drained(ws, 0, 0) == ws
  {
    assert forall x :: x in ws ==> Drained(ws, 0, 0)[x] == ws[x];
  }

  /** Consuming slot `j` of level `i` clears the `pendpos` of the watcher found there, and only that. */
  lemma DrainedStep(qs: Queues, ws: map<Id, Watcher>, i: nat, j: nat)
    requires Consistent(qs, ws) && i < |qs| && j < |qs[i]|
    ensures qs[i][j] in Drained(ws, i, j)
    ensures Drained(ws, i, j)[qs[i][j] := Drained(ws, i, j)[qs[i][j]].(pendpos := 0)] == Drained(ws, i, j + 1)
  {
    var ev := qs[i][j];
    var d, d' := Drained(ws, i, j), Drained(ws, i, j + 1);
    var u := d[ev := d[ev].(pendpos := 0)];
    forall x | x in ws ensures u[x] == d'[x] {
      if x != ev && ws[x].pendpos > 0 {
        assert InSlot(qs, x, ws[x].priority, ws[x].pendpos);
      }
    }
    assert u == d';
  }

  /** Once every slot of level `i` is consumed the drain moves on to level `i + 1`. */
  lemma DrainedNextLevel(qs: Queues, ws: map<Id, Watcher>, i: nat)
    requires Consistent(qs, ws) && i < |qs|
    ensures Drained(ws, i, |qs[i]|) == Drained(ws, i + 1, 0)
  {
    forall x | x in ws ensures Drained(ws, i, |qs[i]|)[x] == Drained(ws, i + 1, 0)[x] {
      if ws[x].pendpos > 0 {
        assert InSlot(qs, x, ws[x].priority, ws[x].pendpos);
      }
    }
  }

  /** After the last level every `pendpos` is cleared. */
  lemma DrainedAll(qs: Queues, ws: map<Id, Watcher>)
    requires Consistent(qs, ws)
    ensures Drained(ws, |qs|, 0) == ZeroPendpos(ws)
  {
    forall x | x in ws ensures Drained(ws, |qs|, 0)[x] == ZeroPendpos(ws)[x] {
      if ws[x].pendpos > 0 {
        assert InSlot(qs, x, ws[x].priority, ws[x].pendpos);
      }
    }
  }

  /** Records that differ only in `pendpos` look the same once a drain has cleared it. */
  lemma ZeroPendposSameBut(a: map<Id, Watcher>, b: map<Id, Watcher>)
    requires SameBut(a, b)
    ensures ZeroPendpos(a) == ZeroPendpos(b)
  {
    assert forall x :: x in a ==> ZeroPendpos(a)[x] == ZeroPendpos(b)[x];
  }

  /** Storing `w` at slot `cnt[p]` of level `p` and counting it is `Enqueue` on the live view. */
  lemma LiveAppend(storage: seq<seq<Id>>, cnt: seq<nat>, ws: map<Id, Watcher>, w: Id, slots: seq<Id>)
    requires |storage| == |cnt| && forall i :: 0 <= i < |cnt| ==> cnt[i] <= |storage[i]|
    requires w in ws && ws[w].pendpos == 0 && 0 <= ws[w].priority < |cnt|
    requires var p := ws[w].priority;
      cnt[p] < |slots| && slots[..cnt[p]] == storage[p][..cnt[p]] && slots[cnt[p]] == w
    ensures var p := ws[w].priority;
      var cnt' := cnt[p := cnt[p] + 1];
      && (forall i :: 0 <= i < |cnt'| ==> cnt'[i] <= |storage[p := slots][i]|)
      && Live(storage[p := slots], cnt') ==
           Enqueue(Pend(Live(storage, cnt), ws), w).queues
      && ws[w := ws[w].(pendpos := cnt[p] + 1)] == Enqueue(Pend(Live(storage, cnt), ws), w).ws
      && (Consistent(Live(storage, cnt), ws) && w != EmptyEv ==>
           Consistent(Live(storage[p := slots], cnt'), ws[w := ws[w].(pendpos := cnt[p] + 1)]))
  {
    var p := ws[w].priority;
    var cnt' := cnt[p := cnt[p] + 1];
    var l, e := Live(storage[p := slots], cnt'), Enqueue(Pend(Live(storage, cnt), ws), w).queues;
    forall i | 0 <= i < |cnt| ensures l[i] == e[i] {
      if i == p {
        assert slots[..cnt[p] + 1] == slots[..cnt[p]] + [w];
      }
    }
    if Consistent(Live(storage, cnt), ws) && w != EmptyEv {
      EnqueueKeepsConsistent(Pend(Live(storage, cnt), ws), w);
    }
  }

  /** A queued watcher's slot lies inside the counted part of its level. */
  lemma QueuedAt(storage: seq<seq<Id>>, cnt: seq<nat>, ws: map<Id, Watcher>, w: Id)
    requires |storage| == |cnt| && forall i :: 0 <= i < |cnt| ==> cnt[i] <= |storage[i]|
    requires Consistent(Live(storage, cnt), ws) && w in ws && ws[w].pendpos > 0
    ensures 0 <= ws[w].priority < |cnt| && ws[w].pendpos <= cnt[ws[w].priority]
    ensures storage[ws[w].priority][ws[w].pendpos - 1] == w
  {
    assert InSlot(Live(storage, cnt), w, ws[w].priority, ws[w].pendpos);
  }

  /** Writing the sentinel over slot `k - 1` of level `p` is `Purged` on the live view. */
  lemma LivePurge(storage: seq<seq<Id>>, cnt: seq<nat>, ws: map<Id, Watcher>, w: Id, p: nat, k: nat, slot: seq<Id>)
    requires |storage| == |cnt| && forall i :: 0 <= i < |cnt| ==> cnt[i] <= |storage[i]|
    requires w in ws && ws[w].priority == p && ws[w].pendpos == k && 0 < k
    requires p < |cnt| && k <= cnt[p] && slot == storage[p][k - 1 := EmptyEv]
    ensures forall i :: 0 <= i < |cnt| ==> cnt[i] <= |storage[p := slot][i]|
    ensures Live(storage[p := slot], cnt) == Purged(Pend(Live(storage, cnt), ws), w).queues
  {
    var l, e := Live(storage[p := slot], cnt), Purged(Pend(Live(storage, cnt), ws), w).queues;
    forall i | 0 <= i < |cnt| ensures l[i] == e[i] {
      if i == p {
        assert slot[..cnt[p]] == storage[p][..cnt[p]][k - 1 := EmptyEv];
      }
    }
  }

  /**
    The stop functions' purge of a queued watcher on the storage: with `active` cleared as
    well, writing the sentinel over its slot `k - 1` of level `p` is `Purged` on the live
    view and keeps the invariant.
  */
  lemma StopQueued(storage: seq<seq<Id>>, cnt: seq<nat>, ws: map<Id, Watcher>, w: Id, p: nat, k: nat, slot: seq<Id>)
    requires |storage| == |cnt| && forall i :: 0 <= i < |cnt| ==> cnt[i] <= |storage[i]|
    requires Consistent(Live(storage, cnt), ws) && w in ws && w != EmptyEv
    requires ws[w].priority == p && ws[w].pendpos == k && 0 < k
    requires p < |cnt| && k <= cnt[p] && slot == storage[p][k - 1 := EmptyEv]
    ensures forall i :: 0 <= i < |cnt| ==> cnt[i] <= |storage[p := slot][i]|
    ensures Live(storage[p := slot], cnt) == Purged(Pend(Live(storage, cnt), ws), w).queues
    ensures Consistent(Live(storage[p := slot], cnt), ws[w := ws[w].(active := false, pendpos := 0)])
  {
    var qs := Live(storage, cnt);
    var v := ws[w].(active := false);
    ConsistentUpdate(qs, ws, w, v);
    LivePurge(storage, cnt, ws, w, p, k, slot);
    var s1 := Pend(qs, ws[w := v]);
    PurgeRemoves(s1, w);
    assert Purged(s1, w).queues == Purged(Pend(qs, ws), w).queues;
    assert Purged(s1, w).ws == ws[w := ws[w].(active := false, pendpos := 0)];
  }

  /** The same for a watcher that is not queued: nothing is purged and the invariant is kept. */
  lemma StopIdle(storage: seq<seq<Id>>, cnt: seq<nat>, ws: map<Id, Watcher>, w: Id)
    requires |storage| == |cnt| && forall i :: 0 <= i < |cnt| ==> cnt[i] <= |storage[i]|
    requires Consistent(Live(storage, cnt), ws) && w in ws && w != EmptyEv && ws[w].pendpos == 0
    ensures Live(storage, cnt) == Purged(Pend(Live(storage, cnt), ws), w).queues
    ensures Consistent(Live(storage, cnt), ws[w := ws[w].(active := false, pendpos := 0)])
  {
    var v := ws[w].(active := false);
    ConsistentUpdate(Live(storage, cnt), ws, w, v);
    assert ws[w := v] == ws[w := ws[w].(active := false, pendpos := 0)];
  }
}
