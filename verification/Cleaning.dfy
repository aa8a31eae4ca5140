/**
 The cleaning pass over the cache, run alone.  What each reset of an item meets,
 the order in which the item map is listed and the free space of the disk are
 given from outside.
 */
module Cleaning {
  import opened Common
  import opened Ranges

  type Key = int

  /** What the pass sees of an item; `size` is the number of bytes it has cached. */
  datatype Entry = Entry(atime: int, size: nat, opens: nat, grace: bool, pending: nat, resetting: bool) {
    predicate Idle() { opens == 0 && !grace }
  }

  /** How a reset goes: it may fail before the contents are gone or after, for lack of space or otherwise. */
  datatype Outcome = Fine | FailsBefore(noSpace: bool) | FailsAfter(noSpace: bool)

  type Fate = Key -> Outcome

  /** What a reset leaves of the item, what it freed, and whether it failed (for lack of space). */
  datatype Reset = Reset(left: Option<Entry>, freed: nat, failed: Option<bool>)

  function ResetForSpace(e: Entry, o: Outcome): Reset {
    if e.Idle() then
      if o.FailsBefore? then Reset(Some(e), 0, Some(o.noSpace)) else Reset(None, e.size, None)
    else if e.grace || e.pending > 0 then Reset(Some(e), 0, None)
    else if e.size == 0 && !e.resetting then Reset(Some(e), 0, None)
    else
      match o
      case FailsBefore(noSpace) => Reset(Some(e.(resetting := false)), 0, Some(noSpace))
      case FailsAfter(noSpace) => Reset(Some(e.(size := 0, resetting := noSpace)), e.size, Some(noSpace))
      case Fine => Reset(Some(e.(size := 0, resetting := false)), e.size, None)
  }

  /** The limits; `free` tells the free space of the disk when so many bytes are cached. */
  datatype Quotas = Quotas(maxSize: int, minFree: int, free: int -> int) {
    predicate OK(used: int) {
      (maxSize <= 0 || used <= maxSize) && (minFree <= 0 || free(used) >= minFree)
    }
  }

  type Items = map<Key, Entry>

  datatype Books = Books(items: Items, used: int, failed: map<Key, bool>)

  function SizeAt(items: Items, k: Key): nat {
    if k in items then items[k].size else 0
  }

  /** The bytes cached in the items listed. */
  function Total(items: Items, order: seq<Key>): nat
    decreases |order|
  {
    if order == [] then 0 else SizeAt(items, order[0]) + Total(items, order[1..])
  }

  function Put(items: Items, k: Key, left: Option<Entry>): Items {
    match left
    case None => items - {k}
    case Some(e) => items[k := e]
  }

  /****************************** The three passes ***************************/

  function RemoveUnused(b: Books, k: Key, o: Outcome): Books
    requires k in b.items
  {
    var r := ResetForSpace(b.items[k], o);
    if r.failed.Some? || r.left.Some? then b
    else b.(items := b.items - {k}, used := b.used - r.freed)
  }

  function AgeOne(b: Books, k: Key, cutoff: int, fate: Fate): Books {
    if k in b.items && b.items[k].Idle() && b.items[k].atime < cutoff then RemoveUnused(b, k, fate(k)) else b
  }

  function AgeOut(b: Books, keys: seq<Key>, cutoff: int, fate: Fate): Books
    decreases |keys|
  {
    if keys == [] then b else AgeOut(AgeOne(b, keys[0], cutoff, fate), keys[1..], cutoff, fate)
  }

  function EvictOne(b: Books, k: Key, fate: Fate): Books {
    if SizeAt(b.items, k) > 0 && b.items[k].Idle() then RemoveUnused(b, k, fate(k)) else b
  }

  /** Unused items go in the order given until the quotas hold. */
  function Evict(b: Books, keys: seq<Key>, fate: Fate, q: Quotas): Books
    decreases |keys|
  {
    if keys == [] || q.OK(b.used) then b else Evict(EvictOne(b, keys[0], fate), keys[1..], fate, q)
  }

  function ResetOne(b: Books, k: Key, fate: Fate): Books {
    if SizeAt(b.items, k) == 0 then b
    else
      var r := ResetForSpace(b.items[k], fate(k));
      b.(items := Put(b.items, k, r.left), used := b.used - r.freed,
         failed := if r.failed.Some? then b.failed[k := r.failed.value] else b.failed)
  }

  /** Then open items are emptied in place until the quotas hold. */
  function ResetOpen(b: Books, keys: seq<Key>, fate: Fate, q: Quotas): Books
    decreases |keys|
  {
    if keys == [] || q.OK(b.used) then b else ResetOpen(ResetOne(b, keys[0], fate), keys[1..], fate, q)
  }

  /***************************** Used is the total ***************************/

  predicate Distinct(keys: seq<Key>) {
    forall i, j :: 0 <= i < j < |keys| ==> keys[i] != keys[j]
  }

  /** The books name every item once and `used` is what they hold. */
  ghost predicate Balanced(b: Books, order: seq<Key>) {
    Distinct(order) && (forall k :: k in b.items ==> k in order) && b.used == Total(b.items, order)
  }

  lemma {:induction false} TotalSame(items: Items, items': Items, order: seq<Key>)
    requires forall k :: k in order ==> SizeAt(items', k) == SizeAt(items, k)
    ensures Total(items', order) == Total(items, order)
    decreases |order|
  {
    if order != [] {
      assert order[0] in order;
      TotalSame(items, items', order[1..]);
    }
  }

  lemma {:induction false} TotalChange(items: Items, items': Items, order: seq<Key>, k: Key)
    requires Distinct(order) && k in order
    requires forall x :: x in order && x != k ==> SizeAt(items', x) == SizeAt(items, x)
    ensures Total(items', order) - Total(items, order) == SizeAt(items', k) - SizeAt(items, k)
    decreases |order|
  {
    if order[0] == k {
      TotalSame(items, items', order[1..]);
    } else {
      assert order[0] in order;
      TotalChange(items, items', order[1..], k);
    }
  }

  /** However the items are listed, the total is the same. */
  lemma {:induction false} TotalAnyOrder(items: Items, a: seq<Key>, b: seq<Key>)
    requires Distinct(a) && Distinct(b)
    requires (forall k :: k in a ==> k in b) && (forall k :: k in b ==> k in a)
    ensures Total(items, a) == Total(items, b)
    decreases |a|
  {
    assert |b| > 0 ==> var k := b[0]; k in b && k in a;
    if a != [] {
      var k0 := a[0];
      assert k0 in a;
      assert k0 in b;
      var i :| 0 <= i < |b| && b[i] == a[0];
      var rest := b[..i] + b[i + 1..];
      forall k | k in a[1..]
        ensures k in rest
      {
        assert k in a && k != a[0];
        var j :| 0 <= j < |b| && b[j] == k;
        assert rest[if j < i then j else j - 1] == k;
      }
      forall k | k in rest
        ensures k in a[1..]
      {
        assert k in b && k != a[0];
        assert k in a;
      }
      TotalAnyOrder(items, a[1..], rest);
      TotalTakeOut(items, b, i);
    }
  }

  lemma {:induction false} TotalTakeOut(items: Items, b: seq<Key>, i: nat)
    requires i < |b|
    ensures Total(items, b) == SizeAt(items, b[i]) + Total(items, b[..i] + b[i + 1..])
    decreases i
  {
    if i == 0 {
      assert b[..0] + b[1..] == b[1..];
    } else {
      TotalTakeOut(items, b[1..], i - 1);
      assert b[1..][..i - 1] + b[1..][i..] == (b[..i] + b[i + 1..])[1..];
    }
  }

  lemma AgeOneBalanced(b: Books, order: seq<Key>, k: Key, cutoff: int, fate: Fate)
    requires Balanced(b, order)
    ensures Balanced(AgeOne(b, k, cutoff, fate), order)
  {
    var b' := AgeOne(b, k, cutoff, fate);
    if b' != b {
      TotalChange(b.items, b'.items, order, k);
    }
  }

  lemma EvictOneBalanced(b: Books, order: seq<Key>, k: Key, fate: Fate)
    requires Balanced(b, order)
    ensures Balanced(EvictOne(b, k, fate), order)
  {
    var b' := EvictOne(b, k, fate);
    if b' != b {
      TotalChange(b.items, b'.items, order, k);
    }
  }

  lemma ResetOneBalanced(b: Books, order: seq<Key>, k: Key, fate: Fate)
    requires Balanced(b, order)
    ensures Balanced(ResetOne(b, k, fate), order)
  {
    var b' := ResetOne(b, k, fate);
    if SizeAt(b.items, k) > 0 {
      TotalChange(b.items, b'.items, order, k);
    }
  }

  lemma {:induction false} AgeOutBalanced(b: Books, order: seq<Key>, keys: seq<Key>, cutoff: int, fate: Fate)
    requires Balanced(b, order)
    ensures Balanced(AgeOut(b, keys, cutoff, fate), order)
    decreases |keys|
  {
    if keys != [] {
      AgeOneBalanced(b, order, keys[0], cutoff, fate);
      AgeOutBalanced(AgeOne(b, keys[0], cutoff, fate), order, keys[1..], cutoff, fate);
    }
  }

  lemma {:induction false} EvictBalanced(b: Books, order: seq<Key>, keys: seq<Key>, fate: Fate, q: Quotas)
    requires Balanced(b, order)
    ensures Balanced(Evict(b, keys, fate, q), order)
    decreases |keys|
  {
    if keys != [] && !q.OK(b.used) {
      EvictOneBalanced(b, order, keys[0], fate);
      EvictBalanced(EvictOne(b, keys[0], fate), order, keys[1..], fate, q);
    }
  }

  lemma {:induction false} ResetOpenBalanced(b: Books, order: seq<Key>, keys: seq<Key>, fate: Fate, q: Quotas)
    requires Balanced(b, order)
    ensures Balanced(ResetOpen(b, keys, fate, q), order)
    decreases |keys|
  {
    if keys != [] && !q.OK(b.used) {
      ResetOneBalanced(b, order, keys[0], fate);
      ResetOpenBalanced(ResetOne(b, keys[0], fate), order, keys[1..], fate, q);
    }
  }

  /***************************** What is evicted *****************************/

  /** Eviction of all unused items listed, without looking at the quotas. */
  function EvictAll(b: Books, keys: seq<Key>, fate: Fate): Books
    decreases |keys|
  {
    if keys == [] then b else EvictAll(EvictOne(b, keys[0], fate), keys[1..], fate)
  }

  /** The pass evicts the shortest prefix after which the quotas hold, or everything. */
  lemma {:induction false} EvictIsShortestPrefix(b: Books, keys: seq<Key>, fate: Fate, q: Quotas) returns (n: nat)
    ensures n <= |keys| && Evict(b, keys, fate, q) == EvictAll(b, keys[..n], fate)
    ensures n < |keys| ==> q.OK(EvictAll(b, keys[..n], fate).used)
    ensures forall m :: 0 <= m < n ==> !q.OK(EvictAll(b, keys[..m], fate).used)
    decreases |keys|
  {
    if keys == [] || q.OK(b.used) {
      n := 0;
      assert keys[..0] == [];
    } else {
      var b1 := EvictOne(b, keys[0], fate);
      var n1 := EvictIsShortestPrefix(b1, keys[1..], fate, q);
      n := n1 + 1;
      assert keys[..n][1..] == keys[1..][..n1];
      forall m | 0 <= m < n
        ensures !q.OK(EvictAll(b, keys[..m], fate).used)
      {
        if m > 0 {
          assert keys[..m][1..] == keys[1..][..m - 1];
        }
      }
    }
  }

  /** An unused item with contents whose removal will succeed. */
  predicate Removable(items: Items, k: Key, fate: Fate) {
    SizeAt(items, k) > 0 && items[k].Idle() && !fate(k).FailsBefore?
  }

  /** Exactly the removable items listed are gone; all others are untouched. */
  lemma {:induction false} EvictAllItems(b: Books, keys: seq<Key>, fate: Fate)
    ensures var b' := EvictAll(b, keys, fate);
      && b'.failed == b.failed
      && (forall k :: k in b'.items <==> k in b.items && !(k in keys && Removable(b.items, k, fate)))
      && (forall k :: k in b'.items ==> b'.items[k] == b.items[k])
    decreases |keys|
  {
    if keys != [] {
      EvictAllItems(EvictOne(b, keys[0], fate), keys[1..], fate);
      assert forall k :: k in keys <==> k == keys[0] || k in keys[1..];
    }
  }

  /** The age part removes exactly the unused items last used before the cutoff. */
  lemma {:induction false} AgeOutItems(b: Books, keys: seq<Key>, cutoff: int, fate: Fate)
    ensures var b' := AgeOut(b, keys, cutoff, fate);
      && b'.failed == b.failed
      && (forall k :: k in b'.items <==>
            (k in b.items && !(k in keys && b.items[k].Idle() && b.items[k].atime < cutoff && !fate(k).FailsBefore?)))
      && (forall k :: k in b'.items ==> b'.items[k] == b.items[k])
    decreases |keys|
  {
    if keys != [] {
      AgeOutItems(AgeOne(b, keys[0], cutoff, fate), keys[1..], cutoff, fate);
      assert forall k :: k in keys <==> k == keys[0] || k in keys[1..];
    }
  }

  predicate OldestFirst(items: Items, keys: seq<Key>) {
    forall i, j :: 0 <= i < j < |keys| && keys[i] in items && keys[j] in items ==>
      items[keys[i]].atime <= items[keys[j]].atime
  }

  /** With the oldest first, no removable item that stays is older than one that goes. */
  lemma EvictsOldest(b: Books, keys: seq<Key>, fate: Fate, q: Quotas, gone: Key, stays: Key)
    requires OldestFirst(b.items, keys) && Distinct(keys) && gone in keys && stays in keys
    requires gone in b.items && gone !in Evict(b, keys, fate, q).items
    requires stays in Evict(b, keys, fate, q).items && Removable(b.items, stays, fate)
    ensures b.items[gone].Idle() && b.items[gone].atime <= b.items[stays].atime
  {
    var n := EvictIsShortestPrefix(b, keys, fate, q);
    EvictAllItems(b, keys[..n], fate);
    assert stays in b.items && stays !in keys[..n];
    var i :| 0 <= i < n && keys[..n][i] == gone;
    var j :| 0 <= j < |keys| && keys[j] == stays;
  }

  /** If the quotas still do not hold, no removable unused item is left. */
  lemma EvictExhausts(b: Books, keys: seq<Key>, fate: Fate, q: Quotas, k: Key)
    requires !q.OK(Evict(b, keys, fate, q).used) && k in keys
    ensures !Removable(Evict(b, keys, fate, q).items, k, fate)
  {
    var n := EvictIsShortestPrefix(b, keys, fate, q);
    assert keys[..n] == keys;
    EvictAllItems(b, keys, fate);
  }

  /** So open items are emptied only after all removable unused ones are gone. */
  lemma OpenOnlyAfterUnused(b: Books, keys: seq<Key>, evicting: Fate, resetting: Fate, q: Quotas)
    ensures var e := Evict(b, keys, evicting, q);
      || ResetOpen(e, keys, resetting, q) == e
      || forall k :: k in keys ==> !Removable(e.items, k, evicting)
  {
    var e := Evict(b, keys, evicting, q);
    if !q.OK(e.used) {
      forall k | k in keys
        ensures !Removable(e.items, k, evicting)
      {
        EvictExhausts(b, keys, evicting, q, k);
      }
    }
  }

  /******************************** The outcome ******************************/

  /** What a reset for space does not touch. */
  predicate Spared(e: Entry) {
    !e.Idle() && (e.grace || e.pending > 0)
  }

  /** Nothing is left in an item that a reset would have touched, unless the reset fails at once. */
  ghost predicate Cleared(items: Items, k: Key, fate: Fate) {
    SizeAt(items, k) > 0 ==> Spared(items[k]) || fate(k).FailsBefore?
  }

  lemma ResetOneClears(b: Books, k: Key, fate: Fate)
    ensures var b' := ResetOne(b, k, fate);
      && Cleared(b'.items, k, fate)
      && (forall x :: x != k ==> (x in b'.items <==> x in b.items))
      && (forall x :: x != k && x in b.items ==> b'.items[x] == b.items[x])
  {
  }

  lemma {:induction false} ResetOpenKeeps(b: Books, keys: seq<Key>, fate: Fate, q: Quotas, k: Key)
    requires Cleared(b.items, k, fate)
    ensures Cleared(ResetOpen(b, keys, fate, q).items, k, fate)
    decreases |keys|
  {
    if keys != [] && !q.OK(b.used) {
      ResetOneClears(b, keys[0], fate);
      ResetOpenKeeps(ResetOne(b, keys[0], fate), keys[1..], fate, q, k);
    }
  }

  /** The resets end within the quotas, or with every item listed cleared. */
  lemma {:induction false} ResetOpenClears(b: Books, keys: seq<Key>, fate: Fate, q: Quotas, k: Key)
    requires k in keys && !q.OK(ResetOpen(b, keys, fate, q).used)
    ensures Cleared(ResetOpen(b, keys, fate, q).items, k, fate)
    decreases |keys|
  {
    var b1 := ResetOne(b, keys[0], fate);
    if k == keys[0] {
      ResetOneClears(b, k, fate);
      ResetOpenKeeps(b1, keys[1..], fate, q, k);
    } else {
      ResetOpenClears(b1, keys[1..], fate, q, k);
    }
  }

  /*************************** What is emptied *******************************/

  /** What is left of an item with contents that a reset has been tried on. */
  predicate WasReset(e: Entry, left: Option<Entry>, o: Outcome) {
    if e.size == 0 || Spared(e) then left == Some(e)
    else if e.Idle() then left == if o.FailsBefore? then Some(e) else None
    else if o.FailsBefore? then left == Some(e.(resetting := false))
    else left == Some(e.(size := 0, resetting := o == FailsAfter(true)))
  }

  /** The failure that is remembered of it. */
  function Complaint(e: Entry, o: Outcome): Option<bool> {
    if e.size == 0 || Spared(e) || o.Fine? then None
    else if o.FailsBefore? then Some(o.noSpace)
    else if e.Idle() then None
    else Some(o.noSpace)
  }

  /** Resets of all items listed, without looking at the quotas. */
  function ResetAll(b: Books, keys: seq<Key>, fate: Fate): Books
    decreases |keys|
  {
    if keys == [] then b else ResetAll(ResetOne(b, keys[0], fate), keys[1..], fate)
  }

  /** Exactly the items listed are reset, each once; all others are untouched. */
  lemma {:induction false} ResetAllItems(b: Books, keys: seq<Key>, fate: Fate, k: Key)
    requires Distinct(keys)
    ensures var b' := ResetAll(b, keys, fate);
      && (k !in keys || k !in b.items ==> At(b'.items, k) == At(b.items, k) && (k in b'.failed <==> k in b.failed)
                                          && (k in b.failed ==> b'.failed[k] == b.failed[k]))
      && (k in keys && k in b.items ==>
            && WasReset(b.items[k], At(b'.items, k), fate(k))
            && (k in b'.failed <==> k in b.failed || Complaint(b.items[k], fate(k)).Some?)
            && (Complaint(b.items[k], fate(k)).Some? ==> b'.failed[k] == Complaint(b.items[k], fate(k)).value))
    decreases |keys|
  {
    if keys != [] {
      var b1 := ResetOne(b, keys[0], fate);
      ResetAllItems(b1, keys[1..], fate, k);
      assert k in keys <==> k == keys[0] || k in keys[1..];
      if k == keys[0] {
        assert k !in keys[1..];
      }
    }
  }

  function At(items: Items, k: Key): Option<Entry> {
    if k in items then Some(items[k]) else None
  }

  lemma {:induction false} ResetAllBalanced(b: Books, order: seq<Key>, keys: seq<Key>, fate: Fate)
    requires Balanced(b, order)
    ensures Balanced(ResetAll(b, keys, fate), order)
    decreases |keys|
  {
    if keys != [] {
      ResetOneBalanced(b, order, keys[0], fate);
      ResetAllBalanced(ResetOne(b, keys[0], fate), order, keys[1..], fate);
    }
  }

  /** The pass resets the shortest prefix after which the quotas hold, or everything. */
  lemma {:induction false} ResetOpenIsShortestPrefix(b: Books, keys: seq<Key>, fate: Fate, q: Quotas) returns (n: nat)
    ensures n <= |keys| && ResetOpen(b, keys, fate, q) == ResetAll(b, keys[..n], fate)
    ensures n < |keys| ==> q.OK(ResetAll(b, keys[..n], fate).used)
    ensures forall m :: 0 <= m < n ==> !q.OK(ResetAll(b, keys[..m], fate).used)
    decreases |keys|
  {
    if keys == [] || q.OK(b.used) {
      n := 0;
      assert keys[..0] == [];
    } else {
      var b1 := ResetOne(b, keys[0], fate);
      var n1 := ResetOpenIsShortestPrefix(b1, keys[1..], fate, q);
      n := n1 + 1;
      assert keys[..n][1..] == keys[1..][..n1];
      forall m | 0 <= m < n
        ensures !q.OK(ResetAll(b, keys[..m], fate).used)
      {
        if m > 0 {
          assert keys[..m][1..] == keys[1..][..m - 1];
        }
      }
    }
  }

  /**
   In terms of the items and what they hold: along the list items are emptied, spared or
   fail until the quotas hold, and no item behind that place is touched.
   */
  lemma ResetOpenStops(b: Books, order: seq<Key>, keys: seq<Key>, fate: Fate, q: Quotas) returns (n: nat)
    requires Balanced(b, order) && Distinct(keys)
    ensures n <= |keys|
    ensures var b' := ResetOpen(b, keys, fate, q);
      && (forall k :: k !in keys[..n] ==> At(b'.items, k) == At(b.items, k))
      && (forall k :: k in keys[..n] && k in b.items ==> WasReset(b.items[k], At(b'.items, k), fate(k)))
      && (n < |keys| ==> q.OK(Total(b'.items, order)))
    ensures forall m :: 0 <= m < n ==> !q.OK(Total(ResetAll(b, keys[..m], fate).items, order))
  {
    n := ResetOpenIsShortestPrefix(b, keys, fate, q);
    forall k
      ensures var b' := ResetOpen(b, keys, fate, q);
        && (k !in keys[..n] ==> At(b'.items, k) == At(b.items, k))
        && (k in keys[..n] && k in b.items ==> WasReset(b.items[k], At(b'.items, k), fate(k)))
    {
      ResetAllItems(b, keys[..n], fate, k);
    }
    ResetAllBalanced(b, order, keys[..n], fate);
    forall m | 0 <= m < n
      ensures !q.OK(Total(ResetAll(b, keys[..m], fate).items, order))
    {
      ResetAllBalanced(b, order, keys[..m], fate);
    }
  }

  /** An item goes untouched when the resets of those listed before it have already met the quotas. */
  lemma YoungerUntouched(b: Books, order: seq<Key>, keys: seq<Key>, fate: Fate, q: Quotas, i: nat, j: nat)
    requires Balanced(b, order) && Distinct(keys) && i <= j < |keys|
    requires q.OK(Total(ResetAll(b, keys[..i], fate).items, order))
    ensures At(ResetOpen(b, keys, fate, q).items, keys[j]) == At(b.items, keys[j])
  {
    var n := ResetOpenStops(b, order, keys, fate, q);
    assert n <= i;
    assert keys[j] !in keys[..n];
  }

  /******************************** Retries **********************************/

  function RetryOne(b: Books, k: Key, fate: Fate): Books {
    if k !in b.items then b.(failed := b.failed - {k})
    else
      var r := ResetForSpace(b.items[k], fate(k));
      b.(items := Put(b.items, k, r.left),
         failed := if r.failed == Some(true) then b.failed[k := true] else b.failed - {k})
  }

  /** The resets remembered as failed are tried again. */
  function Retry(b: Books, keys: seq<Key>, fate: Fate): Books
    decreases |keys|
  {
    if keys == [] then b else Retry(RetryOne(b, keys[0], fate), keys[1..], fate)
  }

  /** A reset begun and not finished is of an open item without access or grace period, and is remembered. */
  ghost predicate Remembered(b: Books) {
    forall k :: k in b.items && b.items[k].resetting ==>
      k in b.failed && b.items[k].opens > 0 && !b.items[k].grace && b.items[k].pending == 0
  }

  lemma {:induction false} RetryRemembers(b: Books, keys: seq<Key>, fate: Fate)
    requires Remembered(b)
    ensures Remembered(Retry(b, keys, fate))
    decreases |keys|
  {
    if keys != [] {
      RetryRemembers(RetryOne(b, keys[0], fate), keys[1..], fate);
    }
  }

  lemma {:induction false} ResetOpenRemembers(b: Books, keys: seq<Key>, fate: Fate, q: Quotas)
    requires Remembered(b)
    ensures Remembered(ResetOpen(b, keys, fate, q))
    decreases |keys|
  {
    if keys != [] && !q.OK(b.used) {
      ResetOpenRemembers(ResetOne(b, keys[0], fate), keys[1..], fate, q);
    }
  }

  lemma {:induction false} AgeOutRemembers(b: Books, keys: seq<Key>, cutoff: int, fate: Fate)
    requires Remembered(b)
    ensures Remembered(AgeOut(b, keys, cutoff, fate))
    decreases |keys|
  {
    if keys != [] {
      AgeOutRemembers(AgeOne(b, keys[0], cutoff, fate), keys[1..], cutoff, fate);
    }
  }

  lemma EvictRemembers(b: Books, keys: seq<Key>, fate: Fate, q: Quotas)
    requires Remembered(b)
    ensures Remembered(Evict(b, keys, fate, q))
  {
    var n := EvictIsShortestPrefix(b, keys, fate, q);
    EvictAllItems(b, keys[..n], fate);
  }

  /** What is left of an item whose reset has been tried again. */
  predicate WasRetried(e: Entry, left: Option<Entry>, o: Outcome) {
    if Spared(e) then left == Some(e)
    else if e.Idle() then left == if o.FailsBefore? then Some(e) else None
    else if e.size == 0 && !e.resetting then left == Some(e)
    else if o.FailsBefore? then left == Some(e.(resetting := false))
    else left == Some(e.(size := 0, resetting := o == FailsAfter(true)))
  }

  /** The retry has met a full disk. */
  predicate StillFull(e: Entry, o: Outcome) {
    && !Spared(e) && (e.Idle() || e.size > 0 || e.resetting)
    && (o == FailsBefore(true) || (o == FailsAfter(true) && !e.Idle()))
  }

  /** Each item listed is tried again once, and stays remembered exactly when the disk is still full. */
  lemma {:induction false} RetryItems(b: Books, keys: seq<Key>, fate: Fate, k: Key)
    requires Distinct(keys)
    ensures var b' := Retry(b, keys, fate);
      && (k !in keys || k !in b.items ==> At(b'.items, k) == At(b.items, k))
      && (k in keys && k in b.items ==> WasRetried(b.items[k], At(b'.items, k), fate(k)))
      && (k in keys ==> (k in b'.failed <==> k in b.items && StillFull(b.items[k], fate(k))))
    decreases |keys|
  {
    if keys != [] {
      var b1 := RetryOne(b, keys[0], fate);
      RetryItems(b1, keys[1..], fate, k);
      assert k in keys <==> k == keys[0] || k in keys[1..];
      if k == keys[0] {
        assert k !in keys[1..];
        RetryLeaves(b1, keys[1..], fate, k);
      }
    }
  }

  /** What stays remembered is there and has just failed again for lack of space. */
  lemma {:induction false} RetryLeaves(b: Books, keys: seq<Key>, fate: Fate, k: Key)
    requires Distinct(keys)
    ensures var b' := Retry(b, keys, fate);
      && (k !in keys ==> (k in b'.items <==> k in b.items) && (k in b'.failed <==> k in b.failed)
                         && (k in b.items ==> b'.items[k] == b.items[k])
                         && (k in b.failed ==> b'.failed[k] == b.failed[k]))
      && (k in keys && k in b'.failed ==>
            k in b'.items && b'.failed[k] && (fate(k) == FailsBefore(true) || fate(k) == FailsAfter(true)))
    decreases |keys|
  {
    if keys != [] {
      RetryLeaves(RetryOne(b, keys[0], fate), keys[1..], fate, k);
    }
  }

  /******************************* The whole pass ****************************/

  datatype Fates = Fates(aging: Fate, evicting: Fate, resetting: Fate, retrying: Fate)

  function AgePart(b: Books, order: seq<Key>, cutoff: Option<int>, fate: Fate): Books {
    if cutoff.Some? then AgeOut(b, order, cutoff.value, fate) else b
  }

  function QuotaPart(b: Books, sorted: seq<Key>, f: Fates, q: Quotas): Books {
    ResetOpen(Evict(b, sorted, f.evicting, q), sorted, f.resetting, q)
  }

  function RetryPart(b: Books, retries: seq<Key>, fate: Fate, q: Quotas): Books {
    if q.maxSize > 0 || q.minFree > 0 then Retry(b, retries, fate) else b
  }

  /**
   Up to the retries `used` is the real total, and the pass ends within the quotas
   or with nothing left but what is spared or fails to be reset.
   */
  lemma PassOutcome(b: Books, order: seq<Key>, sorted: seq<Key>, cutoff: Option<int>, f: Fates, q: Quotas)
    requires Balanced(b, order) && forall k :: k in order ==> k in sorted
    ensures var b' := QuotaPart(AgePart(b, order, cutoff, f.aging), sorted, f, q);
      && Balanced(b', order)
      && (q.OK(b'.used) || forall k :: k in b'.items ==> Cleared(b'.items, k, f.resetting))
  {
    var b1 := AgePart(b, order, cutoff, f.aging);
    if cutoff.Some? {
      AgeOutBalanced(b, order, order, cutoff.value, f.aging);
    }
    var b2 := Evict(b1, sorted, f.evicting, q);
    EvictBalanced(b1, order, sorted, f.evicting, q);
    var b3 := ResetOpen(b2, sorted, f.resetting, q);
    ResetOpenBalanced(b2, order, sorted, f.resetting, q);
    if !q.OK(b3.used) {
      forall k | k in b3.items
        ensures Cleared(b3.items, k, f.resetting)
      {
        assert k in order;
        ResetOpenClears(b2, sorted, f.resetting, q, k);
      }
    }
  }

  /** Emptying the cache takes no free space away, as far as that is looked at. */
  ghost predicate FreesDisk(q: Quotas) {
    q.minFree <= 0 || forall u, v :: 0 <= u <= v ==> q.free(u) >= q.free(v)
  }

  /** The retries let nothing grow. */
  lemma {:induction false} RetryShrinks(b: Books, keys: seq<Key>, fate: Fate, k: Key)
    ensures SizeAt(Retry(b, keys, fate).items, k) <= SizeAt(b.items, k)
    decreases |keys|
  {
    if keys != [] {
      RetryShrinks(RetryOne(b, keys[0], fate), keys[1..], fate, k);
    }
  }

  lemma {:induction false} TotalShrinks(items: Items, items': Items, order: seq<Key>)
    requires forall k :: SizeAt(items', k) <= SizeAt(items, k)
    ensures Total(items', order) <= Total(items, order)
    decreases |order|
  {
    if order != [] {
      TotalShrinks(items, items', order[1..]);
    }
  }

  /**
   The whole pass, retries included, ends with what is really cached within the quotas
   or with nothing left but what is spared or fails to be reset.
   */
  lemma WholePass(b: Books, order: seq<Key>, sorted: seq<Key>, retries: seq<Key>,
                  cutoff: Option<int>, f: Fates, q: Quotas)
    requires Balanced(b, order) && FreesDisk(q) && forall k :: k in order ==> k in sorted
    ensures var b' := RetryPart(QuotaPart(AgePart(b, order, cutoff, f.aging), sorted, f, q), retries, f.retrying, q);
      || (&& (q.maxSize <= 0 || Total(b'.items, order) <= q.maxSize)
          && (q.minFree <= 0 || q.free(Total(b'.items, order)) >= q.minFree))
      || forall k :: k in b'.items ==> Cleared(b'.items, k, f.resetting)
  {
    var b1 := QuotaPart(AgePart(b, order, cutoff, f.aging), sorted, f, q);
    PassOutcome(b, order, sorted, cutoff, f, q);
    var b' := RetryPart(b1, retries, f.retrying, q);
    forall k
      ensures SizeAt(b'.items, k) <= SizeAt(b1.items, k) && Untouched(b1, b', k)
    {
      RetryShrinks(b1, retries, f.retrying, k);
      RetrySpares(b1, retries, f.retrying, k);
    }
    TotalShrinks(b1.items, b'.items, order);
  }

  /** A reset that was begun and could not be finished is never forgotten. */
  lemma PassRemembers(b: Books, order: seq<Key>, sorted: seq<Key>, retries: seq<Key>,
                      cutoff: Option<int>, f: Fates, q: Quotas)
    requires Remembered(b)
    ensures Remembered(RetryPart(QuotaPart(AgePart(b, order, cutoff, f.aging), sorted, f, q), retries, f.retrying, q))
  {
    var b1 := AgePart(b, order, cutoff, f.aging);
    if cutoff.Some? {
      AgeOutRemembers(b, order, cutoff.value, f.aging);
    }
    EvictRemembers(b1, sorted, f.evicting, q);
    var b2 := Evict(b1, sorted, f.evicting, q);
    ResetOpenRemembers(b2, sorted, f.resetting, q);
    RetryRemembers(ResetOpen(b2, sorted, f.resetting, q), retries, f.retrying);
  }

  /** An item in its grace period or being accessed goes through the pass unchanged. */
  ghost predicate Untouched(b: Books, b': Books, k: Key) {
    k in b.items && Spared(b.items[k]) ==> k in b'.items && b'.items[k] == b.items[k]
  }

  lemma {:induction false} AgeOutSpares(b: Books, keys: seq<Key>, cutoff: int, fate: Fate, k: Key)
    ensures Untouched(b, AgeOut(b, keys, cutoff, fate), k)
    decreases |keys|
  {
    if keys != [] {
      AgeOutSpares(AgeOne(b, keys[0], cutoff, fate), keys[1..], cutoff, fate, k);
    }
  }

  lemma {:induction false} ResetOpenSpares(b: Books, keys: seq<Key>, fate: Fate, q: Quotas, k: Key)
    ensures Untouched(b, ResetOpen(b, keys, fate, q), k)
    decreases |keys|
  {
    if keys != [] && !q.OK(b.used) {
      ResetOpenSpares(ResetOne(b, keys[0], fate), keys[1..], fate, q, k);
    }
  }

  lemma {:induction false} RetrySpares(b: Books, keys: seq<Key>, fate: Fate, k: Key)
    ensures Untouched(b, Retry(b, keys, fate), k)
    decreases |keys|
  {
    if keys != [] {
      RetrySpares(RetryOne(b, keys[0], fate), keys[1..], fate, k);
    }
  }

  lemma PassSpares(b: Books, order: seq<Key>, sorted: seq<Key>, retries: seq<Key>,
                   cutoff: Option<int>, f: Fates, q: Quotas, k: Key)
    ensures Untouched(b, RetryPart(QuotaPart(AgePart(b, order, cutoff, f.aging), sorted, f, q), retries, f.retrying, q), k)
  {
    var b1 := AgePart(b, order, cutoff, f.aging);
    if cutoff.Some? {
      AgeOutSpares(b, order, cutoff.value, f.aging, k);
    }
    var n := EvictIsShortestPrefix(b1, sorted, f.evicting, q);
    EvictAllItems(b1, sorted[..n], f.evicting);
    var b2 := Evict(b1, sorted, f.evicting, q);
    ResetOpenSpares(b2, sorted, f.resetting, q, k);
    RetrySpares(ResetOpen(b2, sorted, f.resetting, q), retries, f.retrying, k);
  }

  /******************************* The cache *********************************/

  /** What the pass noted of an item when it began. */
  datatype Cand = Cand(key: Key, atime: int, size: nat, opens: nat, grace: bool)

  function Noted(k: Key, e: Entry): Cand {
    Cand(k, e.atime, e.size, e.opens, e.grace)
  }

  function Keys(cands: seq<Cand>): seq<Key> {
    seq(|cands|, i requires 0 <= i < |cands| => cands[i].key)
  }

  /** The notes are up to date: a size of zero stands for an item that is empty or gone. */
  ghost predicate UpToDate(c: Cand, items: Items) {
    && c.size == SizeAt(items, c.key)
    && (c.key in items ==> Noted(c.key, items[c.key]) == c)
  }

  ghost predicate Tracks(cands: seq<Cand>, items: Items) {
    && Distinct(Keys(cands))
    && forall i :: 0 <= i < |cands| ==> UpToDate(cands[i], items)
  }

  predicate Sorted(cands: seq<Cand>) {
    forall i, j :: 0 <= i < j < |cands| ==> cands[i].atime <= cands[j].atime
  }

  /** The same notes, none twice, the oldest first; equal ages may come in any order. */
  predicate SortedCopy(sorted: seq<Cand>, cands: seq<Cand>) {
    && Sorted(sorted) && |sorted| == |cands| && Distinct(Keys(sorted))
    && (forall c :: c in sorted ==> c in cands) && (forall c :: c in cands ==> c in sorted)
  }

  /** Where a note belongs among sorted ones. */
  function Place(sorted: seq<Cand>, c: Cand): (i: nat)
    requires Sorted(sorted)
    ensures i <= |sorted|
    ensures forall j :: 0 <= j < i ==> sorted[j].atime <= c.atime
    ensures forall j :: i <= j < |sorted| ==> c.atime <= sorted[j].atime
    decreases |sorted|
  {
    if sorted == [] || sorted[|sorted| - 1].atime <= c.atime then |sorted|
    else Place(sorted[..|sorted| - 1], c)
  }

  function InsertAt(s: seq<Cand>, i: nat, c: Cand): (r: seq<Cand>)
    requires i <= |s|
    ensures |r| == |s| + 1
    ensures forall j :: 0 <= j < |r| ==> r[j] == if j < i then s[j] else if j == i then c else s[j - 1]
  {
    s[..i] + [c] + s[i..]
  }

  lemma InsertDistinct(s: seq<Cand>, i: nat, c: Cand)
    requires i <= |s| && Distinct(Keys(s)) && forall j :: 0 <= j < |s| ==> s[j].key != c.key
    ensures Distinct(Keys(InsertAt(s, i, c)))
  {
    var keys := Keys(s);
    assert forall j, k :: 0 <= j < k < |s| ==> s[j].key == keys[j] != keys[k] == s[k].key;
  }

  lemma InsertMembers(s: seq<Cand>, i: nat, c: Cand)
    requires i <= |s|
    ensures var r := InsertAt(s, i, c);
      (forall x :: x in r ==> x in s + [c]) && (forall x :: x in s + [c] ==> x in r)
  {
    var r := InsertAt(s, i, c);
    forall x | x in s + [c]
      ensures x in r
    {
      var j :| 0 <= j < |s + [c]| && (s + [c])[j] == x;
      assert r[if j == |s| then i else if j < i then j else j + 1] == x;
    }
  }

  lemma InsertSorted(sorted: seq<Cand>, c: Cand) returns (s: seq<Cand>)
    requires Sorted(sorted) && Distinct(Keys(sorted)) && forall j :: 0 <= j < |sorted| ==> sorted[j].key != c.key
    ensures SortedCopy(s, sorted + [c])
  {
    var i := Place(sorted, c);
    s := InsertAt(sorted, i, c);
    InsertDistinct(sorted, i, c);
    InsertMembers(sorted, i, c);
  }

  lemma {:induction false} CanSort(cands: seq<Cand>) returns (sorted: seq<Cand>)
    requires Distinct(Keys(cands))
    ensures SortedCopy(sorted, cands)
    decreases |cands|
  {
    if cands == [] {
      sorted := [];
    } else {
      var front, last := cands[..|cands| - 1], cands[|cands| - 1];
      assert forall j :: 0 <= j < |cands| ==> Keys(cands)[j] == cands[j].key;
      assert forall j :: 0 <= j < |front| ==> Keys(front)[j] == Keys(cands)[j];
      var s := CanSort(front);
      assert forall c :: c in s ==> c in front && c.key != last.key;
      sorted := InsertSorted(s, last);
      assert cands == front + [last];
    }
  }

  /** A sorted copy of the notes is as good as the notes. */
  lemma SortedTracks(sorted: seq<Cand>, cands: seq<Cand>, items: Items)
    requires SortedCopy(sorted, cands) && Tracks(cands, items)
    ensures Tracks(sorted, items)
    ensures forall k :: k in Keys(cands) ==> k in Keys(sorted)
    ensures forall k :: k in Keys(sorted) ==> k in Keys(cands)
    ensures OldestFirst(items, Keys(sorted))
  {
    forall i | 0 <= i < |sorted|
      ensures UpToDate(sorted[i], items)
    {
      assert sorted[i] in sorted;
      var j :| 0 <= j < |cands| && cands[j] == sorted[i];
    }
    SameKeys(sorted, cands);
    SameKeys(cands, sorted);
  }

  lemma SameKeys(a: seq<Cand>, b: seq<Cand>)
    requires forall c :: c in a ==> c in b
    ensures forall k :: k in Keys(a) ==> k in Keys(b)
  {
    forall k | k in Keys(a)
      ensures k in Keys(b)
    {
      var i :| 0 <= i < |a| && Keys(a)[i] == k;
      assert a[i] in a;
      var j :| 0 <= j < |b| && b[j] == a[i];
      assert Keys(b)[j] == k;
    }
  }

  /** What remains of a note once its item has been reset. */
  function Emptied(c: Cand): Cand {
    c.(size := 0)
  }

  /** Items that differ at most at k. */
  ghost predicate SameBut(items: Items, items': Items, k: Key) {
    forall x :: x != k ==> (x in items' <==> x in items) && (x in items ==> items'[x] == items[x])
  }

  lemma TracksUpdate(cands: seq<Cand>, items: Items, items': Items, i: nat, c: Cand)
    requires Tracks(cands, items) && i < |cands| && c.key == cands[i].key
    requires SameBut(items, items', c.key) && UpToDate(c, items')
    ensures Tracks(cands[i := c], items') && Keys(cands[i := c]) == Keys(cands)
  {
    var keys := Keys(cands);
    var cs := cands[i := c];
    assert Keys(cs) == keys;
    forall j | 0 <= j < |cs|
      ensures UpToDate(cs[j], items')
    {
      if j != i {
        assert keys[j] != keys[i];
        assert UpToDate(cands[j], items);
      }
    }
  }

  lemma {:induction false} TotalPush(items: Items, order: seq<Key>, k: Key)
    ensures Total(items, order + [k]) == Total(items, order) + SizeAt(items, k)
    decreases |order|
  {
    if order == [] {
      assert order + [k] == [k];
      assert [k][1..] == [];
    } else {
      assert (order + [k])[1..] == order[1..] + [k];
      TotalPush(items, order[1..], k);
    }
  }

  lemma Inhabited(keys: set<Key>)
    ensures keys == {} || exists k :: k in keys
  {
    if forall k :: k !in keys {
      assert keys == {};
    }
  }

  class Cache {
    const quotas: Quotas
    var items: Items
    var failed: map<Key, bool>

    constructor (quotas: Quotas, items: Items)
      ensures this.quotas == quotas && this.items == items && failed == map[]
    {
      this.quotas, this.items, failed := quotas, items, map[];
    }

    /** The items in the order in which the map happens to list them. */
    method Snapshot(order: seq<Key>) returns (cands: seq<Cand>, used: int)
      requires Distinct(order) && forall k :: k in order ==> k in items
      ensures Tracks(cands, items) && Keys(cands) == order && used == Total(items, order)
    {
      cands, used := [], 0;
      var i := 0;
      while i < |order|
        invariant 0 <= i <= |order| == |order| && |cands| == i && used == Total(items, order[..i])
        invariant forall j :: 0 <= j < i ==> order[j] in items && cands[j] == Noted(order[j], items[order[j]])
      {
        assert order[i] in order;
        TotalPush(items, order[..i], order[i]);
        assert order[..i + 1] == order[..i] + [order[i]];
        var e := items[order[i]];
        used := used + e.size;
        cands := cands + [Noted(order[i], e)];
        i := i + 1;
      }
      assert order[..i] == order;
      assert Keys(cands) == order;
    }

    method RemoveUnused(k: Key, o: Outcome) returns (removed: bool, freed: nat)
      requires k in items && items[k].Idle()
      modifies `items
      ensures var r := ResetForSpace(old(items)[k], o);
        && removed == (r.left == None)
        && freed == (if removed then r.freed else 0)
        && items == (if removed then old(items) - {k} else old(items))
    {
      var r := ResetForSpace(items[k], o);
      if r.failed.Some? || r.left.Some? {
        return false, 0;
      }
      items := items - {k};
      return true, r.freed;
    }
  
    function Now(used: int): Books
      reads this
    {
      Books(items, used, failed)
    }

    method AgePass(cands: seq<Cand>, total: int, cutoff: int, fate: Fate) returns (cs: seq<Cand>, used: int)
      requires Tracks(cands, items) && forall k :: k in Keys(cands) ==> k in items
      modifies `items
      ensures Now(used) == AgeOut(old(Now(total)), Keys(cands), cutoff, fate)
      ensures Tracks(cs, items) && Keys(cs) == Keys(cands)
    {
      cs, used := cands, total;
      ghost var keys := Keys(cands);
      var i := 0;
      while i < |cs|
        invariant 0 <= i <= |cs| == |cands| && Keys(cs) == keys && Tracks(cs, items)
        invariant forall j :: i <= j < |cs| ==> keys[j] in items
        invariant AgeOut(Now(used), keys[i..], cutoff, fate) == AgeOut(old(Now(total)), keys, cutoff, fate)
      {
        var c := cs[i];
        assert keys[i] == c.key && keys[i..][1..] == keys[i + 1..];
        if c.opens == 0 && !c.grace && c.atime < cutoff {
          ghost var was := items;
          var removed, freed := RemoveUnused(c.key, fate(c.key));
          if removed {
            used := used - freed;
            TracksUpdate(cs, was, items, i, Emptied(c));
            cs := cs[i := Emptied(c)];
          }
        }
        i := i + 1;
      }
    }

    method EvictPass(cands: seq<Cand>, total: int, fate: Fate) returns (cs: seq<Cand>, used: int)
      requires Tracks(cands, items)
      modifies `items
      ensures Now(used) == Evict(old(Now(total)), Keys(cands), fate, quotas)
      ensures Tracks(cs, items) && Keys(cs) == Keys(cands)
    {
      cs, used := cands, total;
      ghost var keys := Keys(cands);
      var i := 0;
      while i < |cs|
        invariant 0 <= i <= |cs| == |cands| && Keys(cs) == keys && Tracks(cs, items)
        invariant Evict(Now(used), keys[i..], fate, quotas) == Evict(old(Now(total)), keys, fate, quotas)
      {
        if quotas.OK(used) {
          break;
        }
        var c := cs[i];
        assert keys[i] == c.key && keys[i..][1..] == keys[i + 1..];
        if c.size != 0 && c.opens == 0 && !c.grace {
          ghost var was := items;
          var removed, freed := RemoveUnused(c.key, fate(c.key));
          if removed {
            used := used - freed;
            TracksUpdate(cs, was, items, i, Emptied(c));
            cs := cs[i := Emptied(c)];
          }
        }
        i := i + 1;
      }
    }

    method ResetPass(cands: seq<Cand>, total: int, fate: Fate) returns (used: int)
      requires Tracks(cands, items)
      modifies `items, `failed
      ensures Now(used) == ResetOpen(old(Now(total)), Keys(cands), fate, quotas)
    {
      used := total;
      var cs := cands;
      ghost var keys := Keys(cands);
      var i := 0;
      while i < |cs|
        invariant 0 <= i <= |cs| == |cands| && Keys(cs) == keys && Tracks(cs, items)
        invariant ResetOpen(Now(used), keys[i..], fate, quotas) == ResetOpen(old(Now(total)), keys, fate, quotas)
      {
        if quotas.OK(used) {
          break;
        }
        assert keys[i] == cs[i].key && keys[i..][1..] == keys[i + 1..];
        cs, used := ResetNext(cs, i, used, fate);
        i := i + 1;
      }
    }

    /** One candidate that still has contents is reset, however open its item is. */
    method ResetNext(cands: seq<Cand>, i: nat, total: int, fate: Fate) returns (cs: seq<Cand>, used: int)
      requires Tracks(cands, items) && i < |cands|
      modifies `items, `failed
      ensures Now(used) == ResetOne(old(Now(total)), cands[i].key, fate)
      ensures Tracks(cs, items) && |cs| == |cands| && Keys(cs) == Keys(cands)
    {
      cs, used := cands, total;
      var c := cs[i];
      if c.size != 0 {
        var r := ResetForSpace(items[c.key], fate(c.key));
        ghost var c' := if r.freed > 0 then Emptied(c) else c;
        assert UpToDate(c', Put(items, c.key, r.left));
        TracksUpdate(cs, items, Put(items, c.key, r.left), i, c');
        used := used - r.freed;
        items := Put(items, c.key, r.left);
        if r.freed > 0 {
          cs := cs[i := Emptied(c)];
        }
        if r.failed.Some? {
          failed := failed[c.key := r.failed.value];
        }
      }
    }

    /** The failed resets in the order in which the map happens to list them. */
    method ListFailed() returns (keys: seq<Key>)
      ensures Distinct(keys) && forall k :: k in keys <==> k in failed
    {
      keys := [];
      var rest := failed.Keys;
      while rest != {}
        invariant Distinct(keys) && rest <= failed.Keys
        invariant forall k :: k in failed <==> k in keys || k in rest
        invariant forall k :: k in keys ==> k in failed && k !in rest
        decreases |rest|
      {
        Inhabited(rest);
        var k :| k in rest;
        keys := keys + [k];
        rest := rest - {k};
      }
    }

    method RetryFailedResets(keys: seq<Key>, fate: Fate)
      requires Distinct(keys)
      modifies `items, `failed
      ensures forall used :: Now(used) == Retry(old(Now(used)), keys, fate)
    {
      var i := 0;
      while i < |keys|
        invariant 0 <= i <= |keys|
        invariant forall used :: Retry(Now(used), keys[i..], fate) == Retry(old(Now(used)), keys, fate)
      {
        var k := keys[i];
        assert keys[i..][1..] == keys[i + 1..];
        if k !in items {
          failed := failed - {k};
        } else {
          var r := ResetForSpace(items[k], fate(k));
          items := Put(items, k, r.left);
          if r.failed == Some(true) {
            failed := failed[k := true];
          } else {
            failed := failed - {k};
          }
        }
        i := i + 1;
      }
    }
  
    method SortByAge(cands: seq<Cand>) returns (s: seq<Cand>)
      requires Tracks(cands, items)
      ensures SortedCopy(s, cands)
    {
      ghost var s0 := CanSort(cands);
      s :| SortedCopy(s, cands);
    }

    method QuotaPass(s: seq<Cand>, total: int, f: Fates) returns (used: int)
      requires Tracks(s, items)
      modifies `items, `failed
      ensures Now(used) == QuotaPart(old(Now(total)), Keys(s), f, quotas)
    {
      used := total;
      if !quotas.OK(used) {
        var cs;
        cs, used := EvictPass(s, used, f.evicting);
        used := ResetPass(cs, used, f.resetting);
      }
    }

    /**
     One pass: age, then quotas, then the resets that failed.  Of several sorted
     copies of the notes any may be used, and the failed resets are tried in any order.
     */
    method Clean(order: seq<Key>, cutoff: Option<int>, f: Fates)
        returns (used: int, ghost sorted: seq<Key>, ghost retries: seq<Key>)
      requires Distinct(order) && (forall k :: k in order ==> k in items) && (forall k :: k in items ==> k in order)
      modifies `items, `failed
      ensures var b := AgePart(old(Now(Total(items, order))), order, cutoff, f.aging);
        && OldestFirst(b.items, sorted)
        && (forall k :: k in order ==> k in sorted) && (forall k :: k in sorted ==> k in order)
        && Distinct(retries) && (forall k :: k in retries <==> k in QuotaPart(b, sorted, f, quotas).failed)
        && Now(used) == RetryPart(QuotaPart(b, sorted, f, quotas), retries, f.retrying, quotas)
      ensures FreesDisk(quotas) ==>
        quotas.OK(Total(items, order)) || forall k :: k in items ==> Cleared(items, k, f.resetting)
    {
      ghost var b0 := Now(Total(items, order));
      var cands, total := Snapshot(order);
      used := total;
      if cutoff.Some? {
        cands, used := AgePass(cands, used, cutoff.value, f.aging);
      }
      var s := SortByAge(cands);
      SortedTracks(s, cands, items);
      sorted := Keys(s);
      used := QuotaPass(s, used, f);
      var failing := ListFailed();
      retries := failing;
      if quotas.maxSize > 0 || quotas.minFree > 0 {
        RetryFailedResets(failing, f.retrying);
      }
      if FreesDisk(quotas) {
        WholePass(b0, order, sorted, retries, cutoff, f, quotas);
      }
    }
  }
}
