/**
  Watcher records shared by every kind of watcher of the event loop
  (`struct evt_base` and its IO, timer, before and after extensions).
  The loop never holds a watcher itself, only its id: the caller owns it.
*/
module Watchers {

  /** Stable handle of a caller-owned watcher. */
  type Id = nat

  /** Id of the loop's own `empty_ev`, the no-op watcher written over a purged pending slot. */
  const EmptyEv: Id := 0

  /** Interest masks, compared as the `uint8_t` of the change flush. */
  type Mask = bv8

  datatype Kind = Io | Timer | Before | After

  /**
    The fields of a watcher the core reads or writes: `active`, `priority`, the 1-based
    `pendpos` (0 = not queued), whether `cb` is non-NULL, and for IO watchers `fd` and `event`.
  */
  datatype Watcher = Watcher(
    kind: Kind,
    active: bool,
    priority: int,
    pendpos: nat,
    hasCb: bool,
    fd: nat,
    event: Mask)

  /** What the loop does that can be observed: a backend `poll_update` call, or a callback run. */
  datatype Effect =
    | PollUpdate(fd: nat, oldMask: Mask, newMask: Mask)
    | Fire(id: Id)

  /** The sentinel as `evt_before_init(empty_ev, NULL)` leaves it: no callback and not queued. */
  const EMPTY_WATCHER := Watcher(Before, false, 0, 0, false, 0, 0)

  /** `b` is `a` with possibly other `pendpos` tokens and nothing else changed. */
  predicate SameBut(a: map<Id, Watcher>, b: map<Id, Watcher>)
  {
    a.Keys == b.Keys && forall x :: x in a ==> b[x].(pendpos := 0) == a[x].(pendpos := 0)
  }

  /** Setting one watcher's `pendpos` changes nothing else. */
  lemma SameButPendpos(ws: map<Id, Watcher>, w: Id, k: nat)
    requires w in ws
    ensures SameBut(ws, ws[w := ws[w].(pendpos := k)])
  {
    assert ws[w].(pendpos := k).(pendpos := 0) == ws[w].(pendpos := 0);
  }

  /** `adjust_between(x, lo, hi)`: the value of `[lo, hi]` nearest to `x`. */
  function Clamp(x: int, lo: int, hi: int): (r: int)
    requires lo <= hi
    ensures lo <= r <= hi
    ensures lo <= x <= hi ==> r == x
    ensures x < lo ==> r == lo
    ensures hi < x ==> r == hi
  {
    if x < lo then lo else if hi < x then hi else x
  }

  /**
    `check_and_expand_array`: make room for `need` elements. The growth step of the source
    (doubling or adding one) is not fixed here: only "at least `need`, old contents kept,
    new cells filled" is promised.
  */
  function Reserve<T>(s: seq<T>, need: nat, fill: T): (r: seq<T>)
    ensures |r| >= need && |r| >= |s|
    ensures r[..|s|] == s
    ensures forall i :: |s| <= i < |r| ==> r[i] == fill
  {
    if |s| >= need then s else s + seq(need - |s|, _ => fill)
  }
}
