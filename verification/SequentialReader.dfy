/**
 The chunked reader: it fetches an object in ranges whose sizes double, and must
 read like the flat bytes of the object from the position last sought.
 */
module SequentialReader {
  import opened Common
  import opened Ranges

  /************************** The chunk schedule *****************************/

  function Pow2(n: nat): nat {
    if n == 0 then 1 else 2 * Pow2(n - 1)
  }

  /** Doubling, up to the limit if there is one. */
  function Grow(size: int, limit: int): int {
    if 2 * size > limit && limit != -1 then limit else 2 * size
  }

  /** The state of the chunk sizes: the current size, and whether a caller chose it. */
  datatype Chunk = Chunk(size: int, custom: bool)

  function NextChunk(c: Chunk, initial: int, limit: int): Chunk {
    if c.custom then Chunk(initial, false) else Chunk(Grow(c.size, limit), false)
  }

  function ChunkAt(first: Chunk, initial: int, limit: int, k: nat): Chunk {
    if k == 0 then first else NextChunk(ChunkAt(first, initial, limit, k - 1), initial, limit)
  }

  /** How many bytes the chunks before the k-th hold. */
  function Before(first: Chunk, initial: int, limit: int, k: nat): int {
    if k == 0 then 0 else Before(first, initial, limit, k - 1) + ChunkAt(first, initial, limit, k - 1).size
  }

  predicate ValidSizes(initial: int, limit: int) {
    initial > 0 && (limit == -1 || limit >= initial)
  }

  function Doubled(initial: int, k: nat): int {
    if k == 0 then initial else 2 * Doubled(initial, k - 1)
  }

  lemma {:induction false} DoubledIs(initial: int, k: nat)
    ensures Doubled(initial, k) == initial * Pow2(k)
  {
    if k > 0 {
      DoubledIs(initial, k - 1);
      var p := Pow2(k - 1);
      assert Pow2(k) == 2 * p;
      assert initial * (2 * p) == 2 * (initial * p);
    }
  }

  lemma {:induction false} DoubledGrows(initial: int, a: nat, b: nat)
    requires initial > 0 && a <= b
    ensures 0 < Doubled(initial, a) <= Doubled(initial, b)
    decreases b
  {
    if a < b {
      DoubledGrows(initial, a, b - 1);
    } else if a > 0 {
      DoubledGrows(initial, a - 1, b - 1);
    }
  }

  lemma {:induction false} SizesDouble(initial: int, limit: int, k: nat)
    requires ValidSizes(initial, limit)
    ensures ChunkAt(Chunk(initial, false), initial, limit, k) ==
            Chunk(if limit == -1 then Doubled(initial, k) else Min(Doubled(initial, k), limit), false)
    ensures Doubled(initial, k) >= initial
  {
    if k > 0 {
      SizesDouble(initial, limit, k - 1);
    }
  }

  /** From a plain seek the k-th chunk holds min(initial * 2^k, limit) bytes. */
  lemma ChunkSizes(initial: int, limit: int, k: nat)
    requires ValidSizes(initial, limit)
    ensures ChunkAt(Chunk(initial, false), initial, limit, k).size ==
            if limit == -1 then initial * Pow2(k) else Min(initial * Pow2(k), limit)
  {
    SizesDouble(initial, limit, k);
    DoubledIs(initial, k);
  }

  /** Without a limit a chunk is as long as everything before it plus the first one. */
  lemma {:induction false} ChunksTile(initial: int, k: nat)
    requires initial > 0
    ensures var first := Chunk(initial, false);
      && Before(first, initial, -1, k) == initial * Pow2(k) - initial
      && ChunkAt(first, initial, -1, k).size == initial + Before(first, initial, -1, k)
  {
    SizesDouble(initial, -1, k);
    DoubledIs(initial, k);
    if k > 0 {
      ChunksTile(initial, k - 1);
      SizesDouble(initial, -1, k - 1);
      DoubledIs(initial, k - 1);
    }
  }

  /**
   A plain seek does not clear the mark that a ranged seek leaves.  With the mark
   set the first size is used twice, so the schedule is the doubling one exactly
   when the mark is clear or there is no room to grow.
   */
  lemma DoublingCondition(initial: int, limit: int, custom: bool)
    requires ValidSizes(initial, limit)
    ensures (forall k: nat :: ChunkAt(Chunk(initial, custom), initial, limit, k).size
                           == ChunkAt(Chunk(initial, false), initial, limit, k).size)
       <==> !custom || limit == initial
  {
    var marked, plain := Chunk(initial, true), Chunk(initial, false);
    assert ChunkAt(marked, initial, limit, 1) == plain;
    assert ChunkAt(plain, initial, limit, 1).size == Grow(initial, limit);
    if custom && limit != initial {
      assert ChunkAt(marked, initial, limit, 1).size != ChunkAt(plain, initial, limit, 1).size;
    } else if limit == initial {
      forall k: nat ensures ChunkAt(marked, initial, limit, k).size == ChunkAt(plain, initial, limit, k).size {
        ConstantSizes(initial, true, k);
        ConstantSizes(initial, false, k);
      }
    }
  }

  lemma {:induction false} ConstantSizes(initial: int, custom: bool, k: nat)
    requires initial > 0
    ensures ChunkAt(Chunk(initial, custom), initial, initial, k).size == initial
  {
    if k > 0 {
      ConstantSizes(initial, custom, k - 1);
    }
  }

  lemma {:induction false} ChunksPositive(first: Chunk, initial: int, limit: int, k: nat)
    requires ValidSizes(initial, limit) && first.size > 0
    ensures ChunkAt(first, initial, limit, k).size > 0
    ensures Before(first, initial, limit, k) >= 0
    ensures k > 0 ==> Before(first, initial, limit, k) > 0
  {
    if k > 0 {
      ChunksPositive(first, initial, limit, k - 1);
    }
  }

  lemma Tail(src: seq<byte>, a: nat, m: nat, e: nat, p: seq<byte>)
    requires a <= m <= e <= |src| && src[a..e] == src[a..m] + p
    ensures p == src[m..e]
  {
    assert p == src[a..e][m - a..];
  }

  /******************************* The reader ********************************/

  /**
   What the origin does in one pass of the read loop: whether an open works, how far
   the stream gets, and whether it then reports its end as such or fails.
   */
  datatype Answer = Answer(works: bool, reach: nat, ends: bool)

  /** Every open works and every stream gets as far as asked. */
  ghost predicate Helpful(origin: nat -> Answer, k: nat) {
    forall i :: origin(i).works && origin(i).reach >= k
  }

  /** Where a reader of `total` bytes stands: its position, its chunk, and what has become of that. */
  datatype View = View(at: int, chunkOffset: int, chunkSize: int, chunkEnd: int, stranded: bool, spent: bool, total: int)

  /**
   One pass of the read loop, asked for k bytes.  It hands out what there is of the chunk,
   as far as the stream gets, and fails only at the end if opens work.  It reports the end short of the end
   exactly when the reader was stranded and the old stream reports its end, and strands
   the reader exactly when the chunk was used up and the next one does not open.
   */
  ghost predicate Passed(v: View, v': View, k: nat, a: Answer, n: nat, e: Option<Error>) {
    && v'.at == v.at + n && n <= k && v.at <= v'.at <= v'.total == v.total
    && (e == None ==> n > 0) && (n == k ==> e == None)
    && (!v.stranded && v.at < v.total && a.works ==> n == Min(a.reach, Min(k, v'.chunkEnd - v.at)))
    && (!v.stranded && a.works && a.reach >= k && e.Some? ==> v'.at == v.total)
    && (!v.stranded && a.works && a.reach >= k && a.ends && e.Some? ==> e in {Some(Eof), Some(NotSatisfiable)})
    && (e == Some(Eof) && v'.at < v.total <==> v.stranded && a.ends)
    && (v.stranded ==> n == 0 && e.Some?)
    && (v'.stranded <==> v.stranded || (v.spent && !a.works))
    && (v'.stranded && !v.stranded ==> n == 0 && e == Some(Failed))
    && (v.at < v.chunkOffset + v.chunkSize ==> v'.chunkOffset == v.chunkOffset && v'.chunkSize == v.chunkSize)
  }

  /** After i passes without an error. */
  ghost predicate Passing(v: View, v': View, k: nat, origin: nat -> Answer, i: nat, n: nat) {
    && v'.at == v.at + n && n <= k && v'.at <= v'.total == v.total
    && (if i == 0 then v' == v else !v.stranded && !v'.stranded && (v.spent ==> origin(0).works))
    && (v.at + k <= v.chunkOffset + v.chunkSize ==> v'.chunkOffset == v.chunkOffset && v'.chunkSize == v.chunkSize)
  }

  /** A whole read of k bytes: the same with the origin's first answer, for as many chunks as it takes. */
  ghost predicate WasRead(v: View, v': View, k: nat, origin: nat -> Answer, n: nat, e: Option<Error>) {
    && v'.at == v.at + n && n <= k && (e == None <==> n == k)
    && (!v.stranded && Helpful(origin, k) ==> n == Min(k, v.total - v.at))
    && (!v.stranded && Helpful(origin, k) && (forall i :: origin(i).ends) && e.Some? ==>
          e in {Some(Eof), Some(NotSatisfiable)})
    && (e == Some(Eof) && v'.at < v.total <==> k > 0 && v.stranded && origin(0).ends)
    && (k > 0 && v.stranded ==> n == 0 && e.Some?)
    && (v.stranded ==> v'.stranded)
    && (v'.stranded && !v.stranded ==> e == Some(Failed))
    && (k > 0 && v.spent && !origin(0).works ==> n == 0 && v'.stranded)
    && (v.at + k <= v.chunkOffset + v.chunkSize ==> v'.chunkOffset == v.chunkOffset && v'.chunkSize == v.chunkSize)
  }

  lemma PassOn(v: View, w: View, x: View, k: nat, origin: nat -> Answer, i: nat, n: nat, m: nat, e: Option<Error>)
    requires Passing(v, w, k, origin, i, n) && n < k && Passed(w, x, k - n, origin(i), m, e)
    ensures if e == None then Passing(v, x, k, origin, i + 1, n + m) else WasRead(v, x, k, origin, n + m, e)
  {
  }

  lemma PassedAll(v: View, w: View, k: nat, origin: nat -> Answer, i: nat)
    requires Passing(v, w, k, origin, i, k) && (i == 0 ==> k == 0)
    ensures WasRead(v, w, k, origin, k, None)
  {
  }

  class Reader {
    const src: seq<byte>
    const initial: int      // -1 when chunking is off
    const limit: int        // -1 when there is none
    var rcOpen: bool        // the open stream delivers src[rcPos..rcEnd]
    var rcPos: int
    var rcEnd: int
    var offset: int         // -1 until the chunk at chunkOffset has been opened
    var chunkOffset: int
    var chunkSize: int
    var custom: bool
    var closed: bool
    ghost var seekStart: int
    ghost var first: Chunk
    ghost var index: nat    // which chunk since the seek
    ghost var out: seq<byte>
    ghost var requested: nat
    ghost var opens: nat

    /** Sizes are normalised before a reader is made. */
    constructor (src: seq<byte>, initialChunkSize: int, maxChunkSize: int)
      ensures Valid() && this.src == src && !closed && !custom
      ensures initial == if initialChunkSize <= 0 then -1 else initialChunkSize
      ensures limit == if maxChunkSize != -1 && maxChunkSize < initial then initial else maxChunkSize
      ensures offset == -1 && seekStart == 0 && out == [] && opens == 0
      ensures chunkOffset == 0 && Chunk(chunkSize, custom) == first == Chunk(initial, false)
    {
      var size := if initialChunkSize <= 0 then -1 else initialChunkSize;
      this.src, this.initial := src, size;
      this.limit := if maxChunkSize != -1 && maxChunkSize < size then size else maxChunkSize;
      rcOpen, rcPos, rcEnd, offset, chunkOffset, chunkSize := false, 0, 0, -1, 0, size;
      custom, closed := false, false;
      seekStart, first, index, out, requested, opens := 0, Chunk(size, false), 0, [], 0, 0;
    }

    /** Where the next byte comes from. */
    function Position(): int
      reads this
    {
      if offset == -1 then chunkOffset else offset
    }

    ghost function Now(): View
      reads this
    {
      View(Position(), chunkOffset, chunkSize, ChunkEnd(), Stranded(), Spent(), |src|)
    }

    ghost predicate Valid()
      reads this
    {
      && (initial == -1 || ValidSizes(initial, limit))
      && 0 <= seekStart <= Position() <= |src|
      && out == src[seekStart..Position()] && |out| <= requested
      && (offset == -1 ==> chunkOffset == seekStart && index == 0 && opens == 0)
      && opens <= index + 1
      && (offset != -1 ==> rcOpen && rcPos == offset <= rcEnd <= |src|)
      && (initial > 0 ==> chunkSize > 0)
      && (offset != -1 && chunkSize > 0 ==>
            chunkOffset <= offset <= chunkOffset + chunkSize && rcEnd <= chunkOffset + chunkSize)
      && (initial > 0 ==> Scheduled())
      && (Stranded() ==> rcPos == rcEnd == offset == chunkOffset)
    }

    /** Where the current chunk ends, inside the object. */
    function ChunkEnd(): int
      reads `chunkOffset, `chunkSize
    {
      if chunkSize > 0 then Min(chunkOffset + chunkSize, |src|) else |src|
    }

    /**
     The chunk after the last one could not be opened: the reader still holds the old
     stream, which has ended, and no further read opens another one.
     */
    predicate Stranded()
      reads `offset, `rcEnd, `chunkOffset, `chunkSize
    {
      offset != -1 && rcEnd != ChunkEnd()
    }

    /** The current chunk is used up and the object goes on. */
    predicate Spent()
      reads `offset, `chunkOffset, `chunkSize
    {
      offset != -1 && chunkSize > 0 && offset == chunkOffset + chunkSize < |src|
    }

    /** The current chunk is the one the schedule prescribes, and enough was asked for to need it. */
    ghost predicate Scheduled()
      reads this
    {
      && first.size > 0
      && Chunk(chunkSize, custom) == ChunkAt(first, initial, limit, index)
      && chunkOffset == seekStart + Before(first, initial, limit, index)
      && (opens > 0 ==> Before(first, initial, limit, index) < requested)
    }

    /** Positions the reader at `off`; a positive length fixes the size of the first chunk. */
    method RangeSeek(off: int, length: int) returns (pos: int, e: Option<Error>)
      requires Valid()
      modifies this
      ensures Valid()
      ensures old(closed) ==> e == Some(Closed) && unchanged(this)
      ensures !old(closed) ==>
        && offset == -1 && out == [] && opens == 0 && requested == 0
        && first == Chunk(if length > 0 then length else initial, old(custom) || length > 0)
        && Chunk(chunkSize, custom) == first && !closed && !Stranded()
        && (e == None <==> 0 <= off < |src|)
        && (e == None ==> pos == seekStart == off)
        && (e.Some? ==> e == Some(InvalidSeek) && seekStart == 0)
    {
      if closed {
        return 0, Some(Closed);
      }
      if length > 0 {
        custom := true;
        chunkSize := length;
      } else {
        chunkSize := initial;
      }
      if off < 0 || off >= |src| {
        Restart(0);
        return 0, Some(InvalidSeek);
      }
      Restart(off);
      return off, None;
    }

    /** Nothing is open and the chunk at `at` comes next. */
    method Restart(at: int)
      requires initial == -1 || (ValidSizes(initial, limit) && chunkSize > 0)
      requires 0 <= at <= |src|
      modifies this`offset, this`chunkOffset, this`seekStart, this`first, this`index, this`out, this`requested, this`opens
      ensures Valid() && offset == -1 && chunkOffset == seekStart == at
      ensures out == [] && opens == 0 && requested == 0 && first == Chunk(chunkSize, custom)
    {
      offset, chunkOffset := -1, at;
      seekStart, first, index, out, requested, opens := at, Chunk(chunkSize, custom), 0, [], 0, 0;
    }

    /** The next chunk begins where the last one ended. */
    method NextChunkSize()
      requires Valid() && offset != -1 && chunkSize > 0 && offset == chunkOffset + chunkSize
      requires |out| < requested
      modifies this`chunkOffset, this`chunkSize, this`custom, this`index
      ensures Valid() && chunkOffset == offset && opens <= index
      ensures offset < |src| ==> Stranded()
    {
      chunkOffset := offset;
      if custom {
        custom := false;
        chunkSize := initial;
      } else {
        chunkSize := chunkSize * 2;
        if chunkSize > limit && limit != -1 {
          chunkSize := limit;
        }
      }
      index := index + 1;
      if initial > 0 {
        ChunksPositive(first, initial, limit, index);
      }
    }

    /** Opens the origin for the current chunk; any failure leaves the old stream in place. */
    method OpenRange(works: bool) returns (e: Option<Error>)
      requires Valid() && chunkOffset == Position() && |out| < requested
      requires opens <= index
      modifies this`rcOpen, this`rcPos, this`rcEnd, this`offset, this`opens
      ensures Valid() && Position() == old(Position())
      ensures e == None ==> offset == chunkOffset && opens == old(opens) + 1
      ensures e == None ==> rcEnd == ChunkEnd()
      ensures e == None <==> works && chunkOffset < |src|
      ensures e.Some? ==> e == Some(if chunkOffset < |src| then Failed else NotSatisfiable)
      ensures e.Some? ==> offset == old(offset) && opens == old(opens) && rcEnd == old(rcEnd)
    {
      if chunkOffset >= |src| {
        return Some(NotSatisfiable);
      }
      if !works {
        return Some(Failed);
      }
      rcOpen, rcPos := true, chunkOffset;
      rcEnd := ChunkEnd();
      offset := chunkOffset;
      opens := opens + 1;
      return None;
    }

    /** Reads up to `k` bytes of the open stream, all of them unless it ends or fails. */
    method ReadFull(k: nat, a: Answer) returns (b: seq<byte>, e: Option<Error>)
      requires Valid() && offset != -1 && |out| + k <= requested
      requires chunkSize > 0 ==> offset + k <= chunkOffset + chunkSize
      modifies this`rcPos, this`offset, this`out
      ensures Valid() && |b| == Min(Min(a.reach, k), old(rcEnd - rcPos))
      ensures out == old(out) + b && offset == old(offset) + |b|
      ensures e == if |b| == k then None else if offset == rcEnd && a.ends then Some(Eof) else Some(Failed)
      ensures offset != -1 && Stranded() == old(Stranded())
      ensures e == Some(Eof) && offset < |src| <==> k > 0 && Stranded() && a.ends
    {
      assert !Stranded() && rcEnd < |src| ==> chunkSize > 0 && k <= rcEnd - offset;
      var m := Min(Min(a.reach, k), rcEnd - rcPos);
      b := src[rcPos..rcPos + m];
      rcPos := rcPos + m;
      offset := offset + m;
      out := out + b;
      assert out == src[seekStart..offset];
      e := if m == k then None else if rcPos == rcEnd && a.ends then Some(Eof) else Some(Failed);
    }

    ghost method Ask(k: nat)
      requires Valid()
      modifies this`requested
      ensures Valid() && |out| + k <= requested
    {
      requested := requested + k;
    }

    /**
     Whatever chunks it takes, the bytes handed out are the next bytes of the object.  A
     read reports the end of the file short of the end exactly when the reader is stranded
     and its old stream reports its end.
     */
    method Read(k: nat, origin: nat -> Answer) returns (p: seq<byte>, e: Option<Error>)
      requires Valid()
      modifies this
      ensures Valid()
      ensures |p| <= k && out == old(out) + p && Position() == old(Position()) + |p|
      ensures p == src[old(Position())..old(Position()) + |p|]
      ensures !closed ==> (e == None <==> |p| == k)
      ensures !closed && !old(Stranded()) && Helpful(origin, k) ==> |p| == Min(k, |src| - old(Position()))
      ensures !closed && !old(Stranded()) && Helpful(origin, k) && (forall i :: origin(i).ends) && e.Some? ==>
        e in {Some(Eof), Some(NotSatisfiable)}
      ensures old(closed) ==> p == [] && e == Some(Closed)
      ensures first == old(first) && seekStart == old(seekStart) && closed == old(closed)
      ensures e == Some(Eof) && Position() < |src| <==> !closed && k > 0 && old(Stranded()) && origin(0).ends
      ensures !closed && k > 0 && old(Stranded()) ==> p == [] && e.Some?
      ensures old(Stranded()) ==> Stranded()
      ensures Stranded() && !old(Stranded()) ==> e == Some(Failed)
      ensures !closed && k > 0 && old(Spent()) && !origin(0).works ==> p == [] && Stranded()
      ensures old(Position()) + k <= old(chunkOffset + chunkSize) ==>
        chunkOffset == old(chunkOffset) && chunkSize == old(chunkSize)
    {
      if closed {
        return [], Some(Closed);
      }
      ghost var pos0 := Position();
      Ask(k);
      p, e := ReadPieces(k, origin);
      Tail(src, seekStart, pos0, Position(), p);
    }

    method ReadPieces(k: nat, origin: nat -> Answer) returns (p: seq<byte>, e: Option<Error>)
      requires Valid() && |out| + k <= requested
      modifies this`chunkOffset, this`chunkSize, this`custom, this`index, this`rcOpen,
               this`rcPos, this`rcEnd, this`offset, this`opens, this`out
      ensures Valid() && out == old(out) + p
      ensures WasRead(old(Now()), Now(), k, origin, |p|, e)
    {
      p, e := [], None;
      ghost var out0, v := out, Now();
      var i: nat := 0;
      while |p| < k
        invariant Valid() && e == None && |p| <= k && (i == 0 ==> p == [])
        invariant Passing(v, Now(), k, origin, i, |p|)
        invariant out == out0 + p && |out| + (k - |p|) <= requested
        decreases k - |p|
      {
        var b;
        b, e := NextPiece(k, origin, i, |p|, v);
        p := p + b;
        if e != None {
          return;
        }
        i := i + 1;
      }
      PassedAll(v, Now(), k, origin, i);
    }

    /** The pass after i passes and n bytes, seen from the beginning of the read. */
    method NextPiece(k: nat, origin: nat -> Answer, i: nat, n: nat, ghost v: View)
        returns (b: seq<byte>, e: Option<Error>)
      requires Valid() && n < k && |out| + (k - n) <= requested
      requires Passing(v, Now(), k, origin, i, n)
      modifies this`chunkOffset, this`chunkSize, this`custom, this`index, this`rcOpen,
               this`rcPos, this`rcEnd, this`offset, this`opens, this`out
      ensures Valid() && out == old(out) + b && (e == None ==> b != [])
      ensures if e == None then Passing(v, Now(), k, origin, i + 1, n + |b|)
              else WasRead(v, Now(), k, origin, n + |b|, e)
    {
      ghost var w := Now();
      b, e := ReadPiece(k - n, origin(i));
      PassOn(v, w, Now(), k, origin, i, n, |b|, e);
    }

    /** One pass of the read loop: at most the rest of one chunk. */
    method ReadPiece(k: nat, a: Answer) returns (b: seq<byte>, e: Option<Error>)
      requires Valid() && 0 < k && |out| + k <= requested
      modifies this`chunkOffset, this`chunkSize, this`custom, this`index, this`rcOpen,
               this`rcPos, this`rcEnd, this`offset, this`opens, this`out
      ensures Valid() && |b| <= k
      ensures out == old(out) + b && Position() == old(Position()) + |b|
      ensures (e == None ==> b != []) && (|b| == k ==> e == None)
      ensures !old(Stranded()) && old(Position()) < |src| && a.works ==>
        |b| == Min(a.reach, Min(k, ChunkEnd() - old(Position())))
      ensures !old(Stranded()) && a.works && a.reach >= k && e.Some? ==> Position() == |src|
      ensures !old(Stranded()) && a.works && a.reach >= k && a.ends && e.Some? ==> e in {Some(Eof), Some(NotSatisfiable)}
      ensures e == Some(Eof) && Position() < |src| <==> old(Stranded()) && a.ends
      ensures old(Stranded()) ==> b == [] && e.Some?
      ensures Stranded() <==> old(Stranded()) || (old(Spent()) && !a.works)
      ensures Stranded() && !old(Stranded()) ==> b == [] && e == Some(Failed)
      ensures old(Position()) < old(chunkOffset + chunkSize) ==>
        chunkOffset == old(chunkOffset) && chunkSize == old(chunkSize)
    {
      e := Prepare(a.works);
      if e != None {
        return [], e;
      }
      b, e := ReadWanted(k, a);
    }

    /** The rest of the chunk, or as much of it as is wanted. */
    method ReadWanted(k: nat, a: Answer) returns (b: seq<byte>, e: Option<Error>)
      requires Valid() && 0 < k && |out| + k <= requested
      requires offset != -1 && (chunkSize > 0 ==> offset < chunkOffset + chunkSize)
      modifies this`rcPos, this`offset, this`out
      ensures Valid() && |b| <= k && offset != -1
      ensures out == old(out) + b && Position() == old(Position()) + |b| && Stranded() == old(Stranded())
      ensures (e == None ==> b != []) && (|b| == k ==> e == None)
      ensures !Stranded() ==> |b| == Min(a.reach, Min(k, ChunkEnd() - old(Position())))
      ensures !Stranded() && a.reach >= k && e.Some? ==> Position() == |src|
      ensures !Stranded() && a.reach >= k && a.ends && e.Some? ==> e == Some(Eof)
      ensures e == Some(Eof) && Position() < |src| <==> old(Stranded()) && a.ends
      ensures e.Some? ==> e == Some(Eof) || e == Some(Failed)
      ensures Stranded() ==> b == [] && e.Some?
    {
      var want := k;
      var rest := chunkOffset + chunkSize - offset;
      if want > rest && chunkSize > 0 {
        want := rest;
      }
      b, e := ReadFull(want, a);
    }

    /** Moves on to the next chunk when the current one is used up, opening what is needed. */
    method Prepare(works: bool) returns (e: Option<Error>)
      requires Valid() && |out| < requested
      modifies this`chunkOffset, this`chunkSize, this`custom, this`index,
               this`rcOpen, this`rcPos, this`rcEnd, this`offset, this`opens
      ensures Valid()
      ensures e == None ==> offset != -1 && (chunkSize > 0 ==> offset < chunkOffset + chunkSize)
      ensures Position() == old(Position())
      ensures Stranded() <==> old(Stranded()) || (old(Spent()) && !works)
      ensures e == None ==> Stranded() == old(Stranded())
      ensures e.Some? ==> e != Some(Eof) && !old(Stranded())
      ensures e.Some? ==> if Position() < |src| then e == Some(Failed) && !works else e == Some(NotSatisfiable)
      ensures old(Position()) < old(chunkOffset + chunkSize) ==>
        chunkOffset == old(chunkOffset) && chunkSize == old(chunkSize)
    {
      e := None;
      if chunkSize > 0 && offset == chunkOffset + chunkSize {
        NextChunkSize();
        e := OpenRange(works);
      } else if offset == -1 {
        e := OpenRange(works);
      }
    }

    /** After a plain seek without a limit, m opened ranges mean more than initial * (2^(m-1) - 1) requested bytes. */
    lemma FewOpens()
      requires Valid() && initial > 0 && limit == -1 && first == Chunk(initial, false) && opens > 0
      ensures initial * Pow2(opens - 1) - initial < requested
    {
      ChunksTile(initial, index);
      DoubledIs(initial, index);
      DoubledIs(initial, opens - 1);
      DoubledGrows(initial, opens - 1, index);
    }

    method Close() returns (e: Option<Error>)
      requires Valid()
      modifies this`closed
      ensures Valid() && closed
      ensures e == if old(closed) then Some(Closed) else None
    {
      if closed {
        return Some(Closed);
      }
      closed := true;
      return None;
    }
  }

  /** A ranged seek followed by a plain one: the reader is at `to`, with the mark set. */
  method MarkedSeek(src: seq<byte>, initial: int, limit: int, length: int, to: int) returns (r: Reader)
    requires ValidSizes(initial, limit) && length > 0 && 0 <= to < |src|
    ensures fresh(r) && r.Valid() && r.src == src && r.initial == initial && r.limit == limit
    ensures r.Position() == to && r.first == Chunk(initial, true)
  {
    r := new Reader(src, initial, limit);
    var pos, e := r.RangeSeek(to, length);
    pos, e := r.RangeSeek(to, -1);
  }
  /**
   An object longer than its first chunk: read that chunk, let the open of the next one
   fail, and the read after that reports the end of the file where the first chunk ends.
   */
  method EarlyEnd(src: seq<byte>, initial: int, limit: int) returns (r: Reader, e: Option<Error>)
    requires ValidSizes(initial, limit) && initial < |src|
    ensures fresh(r) && r.Valid() && r.src == src && !r.closed
    ensures e == Some(Eof) && r.Position() == initial < |src|
  {
    r := new Reader(src, initial, limit);
    var p;
    var fine := (i: nat) => Answer(true, initial, true);
    assert Helpful(fine, initial);
    p, e := r.Read(initial, fine);
    assert r.Spent();
    p, e := r.Read(1, _ => Answer(false, 0, true));
    p, e := r.Read(1, _ => Answer(true, 1, true));
  }
}
