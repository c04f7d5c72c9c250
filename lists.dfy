/**
  The intrusive singly linked lists of the loop (the before list, the after list and
  each fd's IO-watcher list), seen as the sequence of ids met from the head.
*/
module Lists {
  import opened Watchers

  predicate NoDup(l: seq<Id>)
  {
    forall i, j :: 0 <= i < j < |l| ==> l[i] != l[j]
  }

  /** Without duplicates an element occurs once or not at all. */
  lemma NoDupCount(l: seq<Id>, x: Id)
    requires NoDup(l)
    ensures multiset(l)[x] == if x in l then 1 else 0
  {
    if x in l {
      var k :| 0 <= k < |l| && l[k] == x;
      assert l == l[..k] + [x] + l[k + 1..];
      assert forall i :: 0 <= i < k ==> l[..k][i] == l[i] != x;
      assert forall i :: k + 1 <= i < |l| ==> l[k + 1..][i - k - 1] == l[i] != x;
      assert x !in l[..k] && x !in l[k + 1..];
    }
  }

  /**
    A well-formed list of the loop: no node twice, and every node a started watcher of
    kind `k`, not the sentinel, whose priority was clamped into `[0, pmax]`.
  */
  predicate Attached(l: seq<Id>, ws: map<Id, Watcher>, k: Kind, pmax: nat)
  {
    && NoDup(l)
    && forall j :: 0 <= j < |l| ==>
         && l[j] in ws && l[j] != EmptyEv
         && ws[l[j]].kind == k && ws[l[j]].active
         && 0 <= ws[l[j]].priority <= pmax
  }

  /** Changing only `pendpos` tokens keeps a list well-formed. */
  lemma AttachedSameBut(l: seq<Id>, ws: map<Id, Watcher>, ws': map<Id, Watcher>, k: Kind, pmax: nat)
    requires Attached(l, ws, k, pmax) && SameBut(ws, ws')
    ensures Attached(l, ws', k, pmax)
  {
    forall j | 0 <= j < |l| ensures ws'[l[j]].kind == k && ws'[l[j]].active && 0 <= ws'[l[j]].priority <= pmax {
      assert ws'[l[j]].(pendpos := 0) == ws[l[j]].(pendpos := 0);
    }
  }

  /** Changing the record of a watcher that is not on a list keeps the list well-formed. */
  lemma AttachedOther(l: seq<Id>, ws: map<Id, Watcher>, k: Kind, pmax: nat, w: Id, v: Watcher)
    requires Attached(l, ws, k, pmax) && w !in l
    ensures Attached(l, ws[w := v], k, pmax)
  {
  }

  /** Appending a started watcher of the list's kind keeps the list well-formed, whether or not it was on it. */
  lemma AttachedAddTail(l: seq<Id>, ws: map<Id, Watcher>, k: Kind, pmax: nat, w: Id, v: Watcher)
    requires Attached(l, ws, k, pmax) && w != EmptyEv
    requires v.kind == k && v.active && 0 <= v.priority <= pmax
    ensures Attached(AddTail(l, w), ws[w := v], k, pmax)
  {
    AddTailFacts(l, w);
    var r := AddTail(l, w);
    assert forall j :: 0 <= j < |r| ==>
      r[j] == w || (r[j] in ws && r[j] != EmptyEv && ws[r[j]].kind == k && ws[r[j]].active
                    && 0 <= ws[r[j]].priority <= pmax) by {
      if w in l {
        var i :| 0 <= i < |l| && l[i] == w;
        assert r == l[..i + 1];
        assert forall j :: 0 <= j < |r| ==> r[j] == l[j];
      } else {
        assert forall j :: 0 <= j < |l| ==> r[j] == l[j];
      }
    }
  }

  /** Unlinking a watcher keeps the list well-formed whatever becomes of its record. */
  lemma AttachedRemove(l: seq<Id>, ws: map<Id, Watcher>, k: Kind, pmax: nat, w: Id, v: Watcher)
    requires Attached(l, ws, k, pmax)
    ensures w !in RemoveFirst(l, w)
    ensures Attached(RemoveFirst(l, w), ws[w := v], k, pmax)
  {
    RemoveFirstNoDup(l, w);
    var r := RemoveFirst(l, w);
    forall j | 0 <= j < |r| ensures r[j] in l && r[j] != w {
      assert r[j] in r;
    }
    forall j | 0 <= j < |r| ensures r[j] in ws && r[j] != EmptyEv && ws[r[j]].kind == k
      && ws[r[j]].active && 0 <= ws[r[j]].priority <= pmax
    {
      var i :| 0 <= i < |l| && l[i] == r[j];
    }
  }

  /** `evt_list_add`: `elm` becomes the head and the old list follows it. */
  function Add(l: seq<Id>, x: Id): seq<Id>
  {
    [x] + l
  }

  /**
    `evt_list_add_tail`: walk to the last `next` link, store `elm` there and clear
    `elm->next`. A new `elm` ends up after every node, whose order is kept. An `elm`
    already on the list is linked again after the last node and then has its `next`
    cleared, so the list now ends at `elm`: the nodes that followed it drop off.
  */
  function AddTail(l: seq<Id>, x: Id): (r: seq<Id>)
    ensures 0 < |r| <= |l| + 1 && r[|r| - 1] == x && r[..|r| - 1] == l[..|r| - 1]
    decreases |l|
  {
    if l == [] || l[0] == x then [x]
    else [l[0]] + AddTail(l[1..], x)
  }

  /** Appending a node that is not on the list puts it after all the others. */
  lemma {:induction false} AddTailNew(l: seq<Id>, x: Id)
    requires x !in l
    ensures AddTail(l, x) == l + [x]
    decreases |l|
  {
    if l != [] {
      assert x !in l[1..];
      AddTailNew(l[1..], x);
      assert l == [l[0]] + l[1..];
    }
  }

  /** Appending a node met first at index `i` cuts the list just after that index. */
  lemma {:induction false} AddTailPresent(l: seq<Id>, x: Id, i: nat)
    requires i < |l| && l[i] == x && x !in l[..i]
    ensures AddTail(l, x) == l[..i + 1]
    decreases i
  {
    if i > 0 {
      assert l[0] == l[..i][0];
      assert l[1..][..i - 1] == l[1..i];
      AddTailPresent(l[1..], x, i - 1);
      assert l[1..][..i] == l[1..i + 1];
      assert l[..i + 1] == [l[0]] + l[1..i + 1];
    }
  }

  /**
    After `evt_list_add_tail` the node is the last one, and every other node of the new
    list was already on it, in the same order: the new list is the old one up to `x`
    (when `x` was on it) or the old one and then `x`.
  */
  lemma AddTailFacts(l: seq<Id>, x: Id)
    requires NoDup(l)
    ensures |AddTail(l, x)| > 0 && AddTail(l, x)[|AddTail(l, x)| - 1] == x
    ensures NoDup(AddTail(l, x))
    ensures x !in l ==> AddTail(l, x) == l + [x]
    ensures forall i :: 0 <= i < |l| && l[i] == x ==> AddTail(l, x) == l[..i + 1]
  {
    if x in l {
      var i :| 0 <= i < |l| && l[i] == x;
      assert x !in l[..i];
      AddTailPresent(l, x, i);
      forall j | 0 <= j < |l| && l[j] == x ensures AddTail(l, x) == l[..j + 1] {
        assert j == i;
      }
    } else {
      AddTailNew(l, x);
      var r := l + [x];
      forall i, j | 0 <= i < j < |r| ensures r[i] != r[j] {
        if j == |l| { assert r[i] == l[i] && l[i] in l; }
      }
    }
  }

  /** What unlinking the first node equal to `x` leaves of `l`. */
  function RemoveFirst(l: seq<Id>, x: Id): (r: seq<Id>)
    ensures |r| == if x in l then |l| - 1 else |l|
    ensures forall y :: y in r ==> y in l
    decreases |l|
  {
    if l == [] then []
    else if l[0] == x then l[1..]
    else [l[0]] + RemoveFirst(l[1..], x)
  }

  /** Either insertion of a new node adds exactly one occurrence of it; prepending one keeps a list without duplicates. */
  lemma AddCount(l: seq<Id>, x: Id)
    ensures multiset(Add(l, x)) == multiset(l) + multiset{x}
    ensures x !in l ==> multiset(AddTail(l, x)) == multiset(l) + multiset{x}
    ensures NoDup(l) && x !in l ==> NoDup(Add(l, x))
  {
    if x !in l {
      AddTailNew(l, x);
    }
  }

  /** Deleting removes exactly one occurrence of `x`, or nothing when there is none. */
  lemma {:induction false} RemoveFirstCount(l: seq<Id>, x: Id)
    ensures multiset(RemoveFirst(l, x)) == multiset(l) - multiset{x}
    decreases |l|
  {
    if l != [] {
      assert l == [l[0]] + l[1..];
      RemoveFirstCount(l[1..], x);
    }
  }

  /** Unlinking the first occurrence at index `i` closes the gap and keeps the rest in order. */
  lemma {:induction false} RemoveFirstAt(l: seq<Id>, x: Id, i: nat)
    requires i < |l| && l[i] == x && x !in l[..i]
    ensures RemoveFirst(l, x) == l[..i] + l[i + 1..]
    decreases i
  {
    if i > 0 {
      assert l[0] == l[..i][0];
      assert l[1..][..i - 1] == l[1..i];
      assert x !in l[1..][..i - 1];
      RemoveFirstAt(l[1..], x, i - 1);
      assert l[1..][i..] == l[i + 1..];
      assert l[..i] == [l[0]] + l[1..i];
    }
  }

  /** Deleting an element that is not in the list changes nothing. */
  lemma {:induction false} RemoveFirstAbsent(l: seq<Id>, x: Id)
    requires x !in l
    ensures RemoveFirst(l, x) == l
    decreases |l|
  {
    if l != [] {
      assert l[0] != x && x !in l[1..];
      RemoveFirstAbsent(l[1..], x);
      assert l == [l[0]] + l[1..];
    }
  }

  /** Cutting out index `i` of a list without duplicates leaves every other element once, in order. */
  lemma NoDupSplice(l: seq<Id>, i: nat)
    requires NoDup(l) && i < |l|
    ensures NoDup(l[..i] + l[i + 1..])
    ensures forall y :: y in l[..i] + l[i + 1..] <==> y in l && y != l[i]
  {
    var r := l[..i] + l[i + 1..];
    assert |r| == |l| - 1;
    assert forall k :: 0 <= k < |r| ==> r[k] == l[if k < i then k else k + 1];
    forall y ensures y in r <==> y in l && y != l[i] {
      if y in r {
        var k :| 0 <= k < |r| && r[k] == y;
        assert l[if k < i then k else k + 1] == y;
      }
      if y in l && y != l[i] {
        var k :| 0 <= k < |l| && l[k] == y;
        assert r[if k < i then k else k - 1] == y;
      }
    }
  }

  /** On a list without duplicates, deleting `x` removes exactly `x` and keeps the list duplicate-free. */
  lemma RemoveFirstNoDup(l: seq<Id>, x: Id)
    requires NoDup(l)
    ensures NoDup(RemoveFirst(l, x))
    ensures forall y :: y in RemoveFirst(l, x) <==> y in l && y != x
  {
    if x in l {
      var i :| 0 <= i < |l| && l[i] == x;
      assert x !in l[..i];
      RemoveFirstAt(l, x, i);
      NoDupSplice(l, i);
    } else {
      RemoveFirstAbsent(l, x);
    }
  }

  /** Deleting right after prepending gives the old list back. */
  lemma DelAfterAdd(l: seq<Id>, x: Id)
    ensures RemoveFirst(Add(l, x), x) == l
  {
  }

  /** Deleting right after appending a new element gives the old list back. */
  lemma DelAfterAddTail(l: seq<Id>, x: Id)
    requires x !in l
    ensures RemoveFirst(AddTail(l, x), x) == l
  {
    AddTailNew(l, x);
    assert x !in AddTail(l, x)[..|l|];
    RemoveFirstAt(AddTail(l, x), x, |l|);
    assert AddTail(l, x)[..|l|] == l;
  }

  /**
    `evt_list_del`: follow the `next` links until the node equal to `elm` is met, and
    splice it out; a list without `elm` is left as it is.
  */
  method Del(l: seq<Id>, x: Id) returns (r: seq<Id>)
    ensures r == RemoveFirst(l, x)
    ensures x in l ==> |r| == |l| - 1
    ensures x !in l ==> r == l
  {
    var i := 0;
    while i < |l| && l[i] != x
      invariant 0 <= i <= |l|
      invariant x !in l[..i]
    {
      assert l[..i + 1] == l[..i] + [l[i]];
      i := i + 1;
    }
    if i < |l| {
      r := l[..i] + l[i + 1..];
      RemoveFirstAt(l, x, i);
    } else {
      assert l[..i] == l;
      r := l;
      RemoveFirstAbsent(l, x);
    }
  }

  /** The entries of `l` in order of first occurrence. */
  function Dedup(l: seq<nat>): seq<nat>
    decreases |l|
  {
    if l == [] then []
    else
      var d := Dedup(l[..|l| - 1]);
      if l[|l| - 1] in l[..|l| - 1] then d else d + [l[|l| - 1]]
  }

  /** `Dedup` keeps every entry and only those, and no entry twice. */
  lemma {:induction false} DedupFacts(l: seq<nat>)
    ensures forall y :: y in Dedup(l) <==> y in l
    ensures NoDup(Dedup(l))
    decreases |l|
  {
    if l != [] {
      var p, x := l[..|l| - 1], l[|l| - 1];
      DedupFacts(p);
      assert l == p + [x];
      var d := Dedup(p);
      if x !in p {
        assert x !in d;
        forall i, j | 0 <= i < j < |d + [x]| ensures (d + [x])[i] != (d + [x])[j] {
          if j == |d| { assert (d + [x])[i] == d[i] && d[i] in d; }
        }
      }
    }
  }
}
