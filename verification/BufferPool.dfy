/**
 The pool of reusable byte buffers.  A buffer is known by its number.  Every
 method is one critical section; what allocation and the memory limit answer is a
 parameter.
 */
module BufferPool {
  import opened Common
  import opened Ranges

  function SetOf(ids: seq<nat>): set<nat> {
    set i | 0 <= i < |ids| :: ids[i]
  }

  predicate Distinct(ids: seq<nat>) {
    forall i, j :: 0 <= i < j < |ids| ==> Differ(ids, i, j)
  }

  predicate Differ(ids: seq<nat>, i: nat, j: nat)
    requires i < j < |ids|
  {
    ids[i] != ids[j]
  }

  lemma {:induction false} DistinctSize(ids: seq<nat>)
    requires Distinct(ids)
    ensures |SetOf(ids)| == |ids|
    decreases |ids|
  {
    if ids != [] {
      var front, last := ids[..|ids| - 1], ids[|ids| - 1];
      forall i, j | 0 <= i < j < |front|
        ensures Differ(front, i, j)
      {
        assert Differ(ids, i, j);
      }
      DistinctSize(front);
      forall i | 0 <= i < |front|
        ensures front[i] != last
      {
        assert Differ(ids, i, |front|);
      }
      assert last !in SetOf(front);
      assert SetOf(ids) == SetOf(front) + {last} by {
        forall x | x in SetOf(ids)
          ensures x in SetOf(front) + {last}
        {
          var i :| 0 <= i < |ids| && ids[i] == x;
          if i < |front| { assert front[i] == x; }
        }
        forall x | x in SetOf(front)
          ensures x in SetOf(ids)
        {
          var i :| 0 <= i < |front| && front[i] == x;
          assert ids[i] == x;
        }
      }
    }
  }

  /** The smallest of the cache lengths seen. */
  function LowWater(seen: seq<nat>): nat
    requires seen != []
  {
    var last := seen[|seen| - 1];
    if |seen| == 1 then last else Min(LowWater(seen[..|seen| - 1]), last)
  }

  /** It is one of them and none is smaller. */
  lemma {:induction false} LowWaterLeast(seen: seq<nat>)
    requires seen != []
    ensures LowWater(seen) in seen && forall i :: 0 <= i < |seen| ==> LowWater(seen) <= seen[i]
    decreases |seen|
  {
    if |seen| > 1 {
      LowWaterLeast(seen[..|seen| - 1]);
    }
  }

  /** m is the smallest of the lengths seen. */
  ghost predicate Lowest(m: nat, seen: seq<nat>) {
    m in seen && forall i :: 0 <= i < |seen| ==> m <= seen[i]
  }

  lemma LowestIsLowWater(m: nat, seen: seq<nat>)
    requires Lowest(m, seen)
    ensures seen != [] && m == LowWater(seen)
  {
    LowWaterLeast(seen);
  }

  lemma LowestPush(m: nat, seen: seq<nat>, n: nat)
    requires Lowest(m, seen)
    ensures Lowest(Min(m, n), seen + [n])
  {
    var more := seen + [n];
    assert more[|seen|] == n;
    if m <= n {
      var i :| 0 <= i < |seen| && seen[i] == m;
      assert more[i] == m;
    }
  }

  /** No buffer is cached twice, or both cached and handed out; all were made. */
  ghost predicate Shelf(cache: seq<nat>, out: set<nat>, made: nat) {
    && Distinct(cache)
    && (forall i :: 0 <= i < |cache| ==> cache[i] !in out && cache[i] < made)
    && (forall x :: x in out ==> x < made)
  }

  /** What one attempt meets: whether memory is granted, and how many allocations succeed before one fails. */
  datatype Attempt = Attempt(granted: bool, allocs: nat)

  /** A call of some other caller. */
  datatype Call = Get(n: nat, a: Attempt) | Give(buf: nat) | Clear | Age

  datatype Round = Round(attempt: Attempt, others: seq<Call>)

  /** None of the first i attempts meets memory enough for n buffers when `cached` are there. */
  ghost predicate NoneCould(rounds: seq<Round>, i: nat, n: nat, cached: nat)
    requires i <= |rounds|
  {
    forall j :: 0 <= j < i ==> !(rounds[j].attempt.granted && n <= cached + rounds[j].attempt.allocs)
  }

  /** Nobody else does anything between the first i attempts. */
  ghost predicate Alone(rounds: seq<Round>, i: nat)
    requires i <= |rounds|
  {
    forall j :: 0 <= j < i ==> rounds[j].others == []
  }

  /** Only an attempt for more than one buffer can fail after allocating. */
  predicate Strains(c: Call) {
    c.Get? && c.n > 1 && c.a.granted && c.a.allocs > 0
  }

  /** An attempt that allocates some buffers, fails, and with them fills the cache beyond the pool's size. */
  predicate Overfills(cached: nat, poolSize: nat, n: nat, a: Attempt) {
    a.granted && n > cached + a.allocs && cached + a.allocs > poolSize
  }

  class Pool {
    const poolSize: nat
    var cache: seq<nat>
    var minFill: nat
    var inUse: nat
    var alloced: nat
    var flushPending: bool
    var memory: nat               // buffers' worth of the memory limit that is taken
    var made: nat                 // the allocator: buffers ever made
    var out: set<nat>             // buffers handed out: what the callers hold
    ghost var seen: seq<nat>      // cache length at each unlock since the last flush
    ghost var strained: bool      // some attempt has failed after allocating

    ghost predicate Valid()
      reads this
    {
      && Shelf(cache, out, made)
      && inUse == |out| == memory
      && alloced == inUse + |cache|
      && seen != [] && Lowest(minFill, seen) && seen[|seen| - 1] == |cache|
      && (strained || |cache| <= poolSize)
    }

    constructor (poolSize: nat)
      ensures Valid() && cache == [] && out == {} && this.poolSize == poolSize && !strained
    {
      this.poolSize := poolSize;
      cache, minFill, inUse, alloced, flushPending, memory := [], 0, 0, 0, false, 0;
      out, made, seen, strained := {}, 0, [0], false;
    }

    /** What the aged flush would free is always there. */
    lemma MinFillFits()
      requires Valid()
      ensures minFill <= |cache| && minFill == LowWater(seen)
    {
      LowestIsLowWater(minFill, seen);
    }

    method UpdateMinFill()
      requires seen != [] && Lowest(minFill, seen)
      modifies `minFill, `seen
      ensures seen == old(seen) + [|cache|] && Lowest(minFill, seen)
    {
      LowestPush(minFill, seen, |cache|);
      if |cache| < minFill {
        minFill := |cache|;
      }
      seen := seen + [|cache|];
    }

    /**
     One attempt to take n buffers: cached ones from the end of the stack, the rest
     newly allocated.  If memory is refused or an allocation fails, everything goes
     back and nothing has been handed out.
     */
    method TryGetN(n: nat, a: Attempt) returns (got: Option<seq<nat>>)
      requires Valid()
      modifies this
      ensures Valid()
      ensures got.Some? == (a.granted && n <= |old(cache)| + a.allocs)
      ensures got.Some? ==> Given(n, got.value, old(cache), old(out))
      ensures got.None? ==>
        && out == old(out) && old(cache) <= cache
        && |cache| == |old(cache)| + if a.granted then a.allocs else 0
      ensures flushPending == old(flushPending)
      ensures |old(cache)| <= poolSize ==> (|cache| > poolSize <==> Overfills(|old(cache)|, poolSize, n, a))
      ensures strained == (old(strained) || (got.None? && a.granted && a.allocs > 0))
      ensures n <= 1 && got.None? ==> cache == old(cache) && strained == old(strained)
    {
      if !a.granted {
        LowestPush(minFill, seen, |cache|);
        seen := seen + [|cache|];
        return None;
      }
      got := Attempted(n, a.allocs);
    }

    /** The attempt once memory has been granted. */
    method Attempted(n: nat, allocs: nat) returns (got: Option<seq<nat>>)
      requires Valid()
      modifies this
      ensures Valid() && flushPending == old(flushPending)
      ensures got.Some? == (n <= |old(cache)| + allocs)
      ensures strained == (old(strained) || (got.None? && allocs > 0))
      ensures got.Some? ==> Given(n, got.value, old(cache), old(out))
      ensures got.None? ==> out == old(out) && old(cache) <= cache && |cache| == |old(cache)| + allocs
    {
      ghost var was, made0 := cache, made;
      var bufs := Collect(n, allocs);
      if |bufs| < n {
        Fail(n, bufs, was, made0, allocs);
        got := None;
      } else {
        Succeed(n, bufs, was, made0);
        got := Some(bufs);
      }
    }

    /** Half way through an attempt: `bufs` is what was cached of n buffers and as many new ones as there are. */
    ghost predicate HalfWay(was: seq<nat>, made0: nat, n: nat, bufs: seq<nat>)
      reads `cache, `made, `out, `alloced, `inUse, `memory, `seen, `minFill, `strained
    {
      var have := Min(|was|, n);
      && cache == was[..|was| - have] && made0 <= made
      && bufs == was[|was| - have..] + New(made0, made - made0)
      && Shelf(was, out, made0)
      && inUse == |out| == memory && alloced == inUse + |was| + made - made0
      && seen != [] && Lowest(minFill, seen) && seen[|seen| - 1] == |was|
      && (strained || |was| <= poolSize)
    }

    /** The buffers collected become the caller's. */
    method Succeed(n: nat, bufs: seq<nat>, ghost was: seq<nat>, ghost made0: nat)
      requires HalfWay(was, made0, n, bufs) && |bufs| == n
      modifies `out, `inUse, `memory, `minFill, `seen
      ensures Valid() && Given(n, bufs, was, old(out))
    {
      Collected(was, out, made0, |cache|, made - made0);
      HandOut(bufs);
      assert Shelf(cache, out, made);
    }

    /** All that was collected goes back, what was cached before and what is new. */
    method Fail(n: nat, bufs: seq<nat>, ghost was: seq<nat>, ghost made0: nat, allocs: nat)
      requires HalfWay(was, made0, n, bufs) && made - made0 == allocs
      modifies `cache, `seen, `strained
      ensures Valid() && was <= cache && |cache| == |was| + allocs
      ensures strained == (old(strained) || allocs > 0)
    {
      assert cache + bufs == was + New(made0, made - made0);
      AppendNew(was, out, made0, made - made0);
      GiveBack(bufs, |was|);
      strained := strained || allocs > 0;
    }

    /** n distinct buffers have been handed out, the cached ones first. */
    ghost predicate Given(n: nat, bufs: seq<nat>, cache0: seq<nat>, out0: set<nat>)
      reads `cache, `out
    {
      var have := Min(|cache0|, n);
      && |bufs| == n && Distinct(bufs)
      && bufs[..have] == cache0[|cache0| - have..]
      && cache == cache0[..|cache0| - have]
      && SetOf(bufs) !! out0 && out == out0 + SetOf(bufs)
    }

    /** The cached buffers wanted, then new ones as long as they can be allocated. */
    method Collect(n: nat, allocs: nat) returns (bufs: seq<nat>)
      requires Valid()
      modifies `cache, `alloced, `made
      ensures HalfWay(old(cache), old(made), n, bufs)
      ensures if n <= |old(cache)| + allocs then |bufs| == n else |bufs| < n && made - old(made) == allocs
      ensures alloced - made == old(alloced) - old(made)
    {
      var have := Min(|cache|, n);
      var keep := |cache| - have;
      bufs := cache[keep..];
      cache := cache[..keep];
      bufs := Allocate(bufs, n - have, allocs);
    }

    /** New buffers behind those in hand, until an allocation fails. */
    method Allocate(inHand: seq<nat>, want: nat, allocs: nat) returns (bufs: seq<nat>)
      modifies `alloced, `made
      ensures made == old(made) + Min(want, allocs) && alloced == old(alloced) + made - old(made)
      ensures bufs == inHand + New(old(made), made - old(made))
      ensures |bufs| == |inHand| + made - old(made)
    {
      bufs := inHand;
      var i := 0;
      while i < want && i < allocs
        invariant 0 <= i <= Min(want, allocs)
        invariant alloced == old(alloced) + i && made == old(made) + i
        invariant bufs == inHand + New(old(made), i)
      {
        assert New(old(made), i) + [made] == New(old(made), i + 1);
        bufs := bufs + [made];
        alloced := alloced + 1;
        made := made + 1;
        i := i + 1;
      }
    }

    /** A failed attempt only adds to the cache it found, so the watermark stands. */
    method GiveBack(bufs: seq<nat>, ghost was: nat)
      requires seen != [] && Lowest(minFill, seen) && seen[|seen| - 1] == was <= |cache| + |bufs|
      modifies `cache, `seen
      ensures cache == old(cache) + bufs
      ensures seen == old(seen) + [|cache|] && Lowest(minFill, seen)
    {
      cache := cache + bufs;
      LowestPush(minFill, seen, |cache|);
      seen := seen + [|cache|];
    }

    method HandOut(bufs: seq<nat>)
      requires Distinct(bufs) && SetOf(bufs) !! out && inUse == |out|
      requires seen != [] && Lowest(minFill, seen)
      modifies `out, `inUse, `memory, `minFill, `seen
      ensures out == old(out) + SetOf(bufs) && inUse == |out|
      ensures inUse == old(inUse) + |bufs| && memory == old(memory) + |bufs|
      ensures seen == old(seen) + [|cache|] && Lowest(minFill, seen)
    {
      DistinctSize(bufs);
      Disjoint(out, SetOf(bufs));
      out := out + SetOf(bufs);
      inUse, memory := inUse + |bufs|, memory + |bufs|;
      UpdateMinFill();
    }

    /** Returned buffers are cached up to the pool's size and freed beyond it. */
    method PutOne(buf: nat)
      requires memory > 0 && alloced > 0
      modifies `cache, `alloced, `memory
      ensures cache == old(cache) + if |old(cache)| < poolSize then [buf] else []
      ensures alloced == old(alloced) - if |old(cache)| < poolSize then 0 else 1
      ensures memory == old(memory) - 1
    {
      if |cache| < poolSize {
        cache := cache + [buf];
      } else {
        alloced := alloced - 1;
      }
      memory := memory - 1;
    }

    method PutAll(bufs: seq<nat>)
      requires memory >= |bufs| && alloced >= |bufs|
      modifies `cache, `alloced, `memory
      ensures cache == old(cache) + bufs[..Min(|bufs|, Room(|old(cache)|, poolSize))]
      ensures alloced == old(alloced) - |bufs| + |cache| - |old(cache)|
      ensures memory == old(memory) - |bufs|
    {
      ghost var room := Room(|cache|, poolSize);
      var i := 0;
      while i < |bufs|
        invariant 0 <= i <= |bufs|
        invariant cache == old(cache) + bufs[..Min(i, room)]
        invariant memory == old(memory) - i && alloced == old(alloced) - i + |cache| - |old(cache)|
      {
        assert bufs[..i + 1] == bufs[..i] + [bufs[i]];
        PutOne(bufs[i]);
        i := i + 1;
      }
    }

    method Put(buf: nat)
      requires Valid() && buf in out
      modifies this
      ensures Valid() && out == old(out) - {buf} && flushPending && strained == old(strained)
      ensures cache == old(cache) + if |old(cache)| < poolSize then [buf] else []
    {
      RestoredOne(cache, buf, out, made);
      PutOne(buf);
      if |old(cache)| >= poolSize {
        assert cache == old(cache);
      }
      out := out - {buf};
      assert Shelf(cache, out, made);
      inUse := inUse - 1;
      UpdateMinFill();
      flushPending := true;
    }

    method PutN(bufs: seq<nat>)
      requires Valid() && Distinct(bufs) && SetOf(bufs) <= out
      modifies this
      ensures Valid() && out == old(out) - SetOf(bufs) && flushPending && strained == old(strained)
      ensures cache == old(cache) + bufs[..Min(|bufs|, Room(|old(cache)|, poolSize))]
    {
      DistinctSize(bufs);
      SubsetSize(SetOf(bufs), out);
      Restored(cache, bufs, Min(|bufs|, Room(|cache|, poolSize)), out, made);
      PutAll(bufs);
      out := out - SetOf(bufs);
      inUse := inUse - |bufs|;
      UpdateMinFill();
      flushPending := true;
    }

    /** The n newest cached buffers are freed and the watermark starts again. */
    method FlushN(n: nat)
      requires Valid() && n <= |cache|
      modifies `cache, `alloced, `minFill, `seen
      ensures Valid() && cache == old(cache)[..|old(cache)| - n] && alloced == old(alloced) - n
      ensures seen == [|cache|]
    {
      FrontOnShelf(cache, |cache| - n, out, made);
      var i := 0;
      while i < n
        invariant 0 <= i <= n && cache == old(cache)[..|old(cache)| - i] && alloced == old(alloced) - i
        invariant unchanged(`minFill, `seen)
      {
        cache := cache[..|cache| - 1];
        alloced := alloced - 1;
        i := i + 1;
      }
      minFill := |cache|;
      seen := [|cache|];
    }

    method Flush()
      requires Valid()
      modifies `cache, `alloced, `minFill, `seen
      ensures Valid() && cache == [] && alloced == inUse
    {
      FlushN(|cache|);
    }

    /** The aged flush frees exactly the buffers that nobody needed since the last flush. */
    method FlushAged()
      requires Valid()
      modifies `cache, `alloced, `minFill, `seen, `flushPending
      ensures Valid()
      ensures LowWater(old(seen)) <= |old(cache)|
      ensures cache == old(cache)[..|old(cache)| - LowWater(old(seen))]
      ensures flushPending == (cache != [])
    {
      flushPending := false;
      MinFillFits();
      FlushN(minFill);
      if |cache| != 0 {
        flushPending := true;
      }
    }

    /** What other callers do, one after the other; a buffer is returned only by one who holds it. */
    method Others(calls: seq<Call>)
      requires Valid()
      modifies this
      ensures Valid()
      ensures strained ==> old(strained) || exists i :: 0 <= i < |calls| && Strains(calls[i])
      ensures !old(strained) && (forall i :: 0 <= i < |calls| ==> !Strains(calls[i])) ==> |cache| <= poolSize
    {
      for i := 0 to |calls|
        invariant Valid()
        invariant strained ==> old(strained) || exists j :: 0 <= j < i && Strains(calls[j])
      {
        match calls[i]
        case Get(n, a) =>
          var ignored := TryGetN(n, a);
        case Give(buf) =>
          if buf in out {
            Put(buf);
          }
        case Clear => Flush();
        case Age => FlushAged();
      }
    }

    /**
     Attempts until one succeeds, with any calls of others after each that fails; None
     means that the last one listed has failed too.  `held` is what the others hold when
     the call succeeds.
     */
    method GetN(n: nat, rounds: seq<Round>) returns (got: Option<seq<nat>>, ghost held: set<nat>)
      requires Valid()
      modifies this
      ensures Valid()
      ensures got.Some? ==>
        && |got.value| == n && Distinct(got.value)
        && SetOf(got.value) !! held && out == held + SetOf(got.value)
        && inUse == |held| + n
      ensures got.None? ==> out == held
      ensures got.None? ==> NoneCould(rounds, |rounds|, n, 0)
      ensures got.None? && Alone(rounds, |rounds|) ==> NoneCould(rounds, |rounds|, n, |old(cache)|)
      ensures Alone(rounds, |rounds|) ==> held == old(out)
      ensures n <= 1 && Alone(rounds, |rounds|) ==> strained == old(strained)
    {
      got, held := None, out;
      var i := 0;
      while got.None? && i < |rounds|
        invariant 0 <= i <= |rounds| && Valid()
        invariant got.None? ==> out == held
        invariant got.None? ==> NoneCould(rounds, i, n, 0)
        invariant got.None? && Alone(rounds, i) ==> |cache| >= |old(cache)| && NoneCould(rounds, i, n, |old(cache)|)
        invariant got.Some? ==>
          |got.value| == n && Distinct(got.value) && SetOf(got.value) !! held && out == held + SetOf(got.value)
        invariant Alone(rounds, i) ==>
          held == old(out) && (n <= 1 ==> strained == old(strained))
        decreases |rounds| - i
      {
        got := TryGetN(n, rounds[i].attempt);
        if got.None? && rounds[i].others != [] {
          Others(rounds[i].others);
          held := out;
        }
        i := i + 1;
      }
      if got.Some? {
        Disjoint(held, SetOf(got.value));
        DistinctSize(got.value);
      }
    }
  }

  /** The pool's size is no bound on the cache: two buffers asked for, one allocated, none handed out. */
  method Overfilled() returns (pool: Pool)
    ensures fresh(pool) && pool.Valid()
    ensures pool.poolSize == 0 && |pool.cache| == 1 && pool.out == {}
  {
    pool := new Pool(0);
    var got := pool.TryGetN(2, Attempt(true, 1));
  }

  function Room(have: nat, size: nat): nat {
    if have < size then size - have else 0
  }

  /** Buffers that come back were not in the cache. */
  lemma Restored(cache: seq<nat>, bufs: seq<nat>, n: nat, out: set<nat>, made: nat)
    requires Shelf(cache, out, made) && Distinct(bufs) && n <= |bufs| && SetOf(bufs) <= out
    ensures Shelf(cache + bufs[..n], out - SetOf(bufs), made)
  {
    var all := cache + bufs[..n];
    assert forall i :: 0 <= i < n ==> bufs[i] in SetOf(bufs);
    forall i, j | 0 <= i < j < |all|
      ensures Differ(all, i, j)
    {
      if j < |cache| {
        assert Differ(cache, i, j);
      } else if i >= |cache| {
        assert Differ(bufs, i - |cache|, j - |cache|);
      }
    }
  }

  lemma RestoredOne(cache: seq<nat>, buf: nat, out: set<nat>, made: nat)
    requires Shelf(cache, out, made) && buf in out
    ensures Shelf(cache + [buf], out - {buf}, made) && Shelf(cache, out - {buf}, made) && |out - {buf}| == |out| - 1
  {
    assert SetOf([buf]) == {buf} by { assert [buf][0] == buf; }
    assert [buf][..1] == [buf];
    Restored(cache, [buf], 1, out, made);
  }

  lemma FrontOnShelf(cache: seq<nat>, n: nat, out: set<nat>, made: nat)
    requires Shelf(cache, out, made) && n <= |cache|
    ensures Shelf(cache[..n], out, made)
  {
    forall i, j | 0 <= i < j < n
      ensures Differ(cache[..n], i, j)
    {
      assert Differ(cache, i, j);
    }
  }

  lemma SubsetSize(a: set<nat>, b: set<nat>)
    requires a <= b
    ensures |a| <= |b| && |b - a| == |b| - |a|
  {
    assert b == a + (b - a);
  }

  lemma Disjoint(a: set<nat>, b: set<nat>)
    requires a !! b
    ensures |a + b| == |a| + |b|
  {
  }

  /** Buffers just allocated. */
  function New(made: nat, n: nat): seq<nat> {
    seq(n, i requires 0 <= i < n => made + i)
  }

  lemma AppendNew(cache: seq<nat>, out: set<nat>, made: nat, n: nat)
    requires Shelf(cache, out, made)
    ensures Shelf(cache + New(made, n), out, made + n)
  {
    var all := cache + New(made, n);
    forall i, j | 0 <= i < j < |all|
      ensures Differ(all, i, j)
    {
      if j < |cache| {
        assert Differ(cache, i, j);
      }
    }
  }

  /** The tail of the cache and new buffers are distinct and handed out to nobody. */
  lemma Collected(cache: seq<nat>, out: set<nat>, made: nat, keep: nat, n: nat)
    requires Shelf(cache, out, made) && keep <= |cache|
    ensures var bufs := cache[keep..] + New(made, n);
      && Distinct(bufs) && SetOf(bufs) !! out
      && Shelf(cache[..keep], out + SetOf(bufs), made + n)
  {
    var all, bufs := cache + New(made, n), cache[keep..] + New(made, n);
    AppendNew(cache, out, made, n);
    assert bufs == all[keep..];
    forall i, j | 0 <= i < j < |bufs|
      ensures Differ(bufs, i, j)
    {
      assert Differ(all, keep + i, keep + j);
    }
    forall x | x in SetOf(bufs)
      ensures x !in out && x < made + n
    {
      var i :| 0 <= i < |bufs| && bufs[i] == x;
      assert all[keep + i] == x;
    }
    forall i, j | 0 <= i < j < keep
      ensures Differ(cache[..keep], i, j)
    {
      assert Differ(cache, i, j);
    }
    forall i | 0 <= i < keep
      ensures cache[i] !in SetOf(bufs)
    {
      forall j | 0 <= j < |bufs|
        ensures bufs[j] != cache[i]
      {
        assert Differ(all, i, keep + j);
      }
    }
  }
}
