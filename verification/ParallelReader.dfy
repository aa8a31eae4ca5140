/**
 The parallel reader: several streams fetch consecutive chunks in the background
 while one caller reads and seeks.  However far each stream has got, the caller
 must see the flat bytes of the object.
 */
module ParallelReader {
  import opened Common
  import opened Ranges

  const BUFFER_SIZE := 1024 * 1024

  datatype Whence = SeekStart | SeekCurrent | SeekEnd

  /** Chunks are made a whole number of buffers long. */
  function Rounded(chunkSize: int): int {
    var size := if chunkSize < 0 then BUFFER_SIZE else chunkSize;
    var down := BUFFER_SIZE * (size / BUFFER_SIZE);
    if down < size then down + BUFFER_SIZE else down
  }

  /** The smallest whole number of buffers that holds the requested chunk; a negative request means one buffer. */
  lemma RoundedIsCeiling(chunkSize: int)
    ensures Rounded(chunkSize) % BUFFER_SIZE == 0
    ensures chunkSize >= 0 ==> chunkSize <= Rounded(chunkSize) < chunkSize + BUFFER_SIZE
    ensures chunkSize < 0 ==> Rounded(chunkSize) == BUFFER_SIZE
  {
    if chunkSize >= 0 {
      var q := chunkSize / BUFFER_SIZE;
      assert chunkSize == BUFFER_SIZE * q + chunkSize % BUFFER_SIZE;
      assert (BUFFER_SIZE * q) % BUFFER_SIZE == 0;
      assert (BUFFER_SIZE * (q + 1)) % BUFFER_SIZE == 0;
    }
  }

  function Sum(fetch: seq<nat>): nat {
    if fetch == [] then 0 else Sum(fetch[..|fetch| - 1]) + fetch[|fetch| - 1]
  }

  lemma {:induction false} SumGrows(fetch: seq<nat>, i: nat)
    requires i <= |fetch|
    ensures Sum(fetch[..i]) <= Sum(fetch)
    decreases |fetch|
  {
    if i < |fetch| {
      SumGrows(fetch[..|fetch| - 1], i);
      assert fetch[..|fetch| - 1][..i] == fetch[..i];
    } else {
      assert fetch[..i] == fetch;
    }
  }

  /**
   One background stream.  Its buffer holds the first `filled` bytes of the chunk;
   `out` is the buffer's read position.
   */
  class Stream {
    const src: seq<byte>
    const offset: int
    const size: int
    var readBytes: int
    var filled: int
    var out: int

    constructor (src: seq<byte>, offset: int, size: int)
      requires 0 <= offset && 0 < size && offset + size <= |src|
      ensures Valid() && this.src == src && this.offset == offset && this.size == size
      ensures readBytes == 0 && filled == 0
    {
      this.src, this.offset, this.size := src, offset, size;
      readBytes, filled, out := 0, 0, 0;
    }

    ghost predicate Valid()
      reads this
    {
      0 <= offset && 0 < size && offset + size <= |src| && 0 <= out == readBytes <= filled <= size
    }

    /** The background fetch brings up to `n` bytes more, all if the chunk has them. */
    method Fill(n: nat)
      requires filled <= size
      modifies this`filled
      ensures filled == Min(size, old(filled) + n)
    {
      filled := Min(size, filled + n);
    }

    /**
     Reads up to `k` bytes, waiting for the fetch when it is behind.  `fetch` says what
     each wait brings; after the last one the context is cancelled.
     */
    method Read(k: nat, fetch: seq<nat>) returns (p: seq<byte>, e: Option<Error>)
      requires Valid() && k > 0 && readBytes < size
      modifies this`readBytes, this`filled, this`out
      ensures Valid() && filled >= old(filled)
      ensures readBytes == old(readBytes) + |p|
      ensures p == src[offset + old(readBytes)..offset + readBytes]
      ensures |p| == Min(k, Min(size, old(filled) + Sum(fetch)) - old(readBytes))
      ensures e == if readBytes == size then Some(Eof) else if |p| == k then None else Some(Failed)
    {
      var i := 0;
      p := [];
      ghost var had := filled;
      while true
        invariant 0 <= i <= |fetch| && Valid() && |p| < k && readBytes < size
        invariant filled == Min(size, had + Sum(fetch[..i]))
        invariant readBytes == old(readBytes) + |p|
        invariant p == src[offset + old(readBytes)..offset + readBytes]
        decreases |fetch| - i
      {
        var nn := Min(k - |p|, filled - out);
        p := p + src[offset + out..offset + out + nn];
        out := out + nn;
        readBytes := readBytes + nn;
        SumGrows(fetch, i);
        if readBytes >= size {
          return p, Some(Eof);
        }
        if |p| >= k {
          return p, None;
        }
        if i == |fetch| {
          assert fetch[..i] == fetch;
          return p, Some(Failed);
        }
        Fill(fetch[i]);
        assert fetch[..i + 1][..i] == fetch[..i];
        i := i + 1;
      }
    }
  }

  lemma Adjoin(src: seq<byte>, a: int, m: int, e: int)
    requires 0 <= a <= m <= e <= |src|
    ensures src[a..m] + src[m..e] == src[a..e]
  {
  }

  /** What happens in one pass of the read loop: the fetching of the head stream, and whether it closes well. */
  datatype Pass = Pass(fetch: seq<nat>, closes: bool)

  /** Every stream is fetched to its end and closes without an error. */
  ghost predicate Helpful(passes: nat -> Pass, chunkSize: int) {
    forall i :: Sum(passes(i).fetch) >= chunkSize && passes(i).closes
  }

  class Reader {
    const src: seq<byte>
    const chunkSize: int
    const nstreams: nat
    var streams: seq<Stream>
    var endStream: int
    var offset: int
    var closed: bool

    constructor (src: seq<byte>, chunkSize: int, nstreams: nat)
      requires chunkSize != 0 && nstreams > 1
      ensures Valid() && this.src == src && this.nstreams == nstreams && this.chunkSize == Rounded(chunkSize)
      ensures offset == 0 && streams == [] && !closed
    {
      this.src, this.chunkSize, this.nstreams := src, Rounded(chunkSize), nstreams;
      streams, endStream, offset, closed := [], 0, 0, false;
      new;
      RoundedIsCeiling(chunkSize);
    }

    /** Where the i-th stream starts: its predecessors tile everything before it. */
    ghost predicate TileAt(i: int)
      reads this`streams, this`endStream, streams
      requires 0 <= i < |streams|
    {
      && streams[i].src == src
      && streams[i].Valid()
      && (streams[i].size == chunkSize || streams[i].offset + streams[i].size == |src| < streams[i].offset + chunkSize)
      && (i + 1 < |streams| ==> streams[i + 1].offset == streams[i].offset + streams[i].size)
      && (i + 1 == |streams| ==> endStream == streams[i].offset + streams[i].size)
      && (i > 0 ==> streams[i].readBytes == 0)
      && (forall j :: 0 <= j < |streams| && j != i ==> streams[j] != streams[i])
    }

    ghost predicate Tiled()
      reads this`streams, this`endStream, streams
    {
      forall i :: 0 <= i < |streams| ==> TileAt(i)
    }

    ghost predicate Valid()
      reads this, streams
    {
      && chunkSize > 0 && nstreams > 1
      && Tiled() && |streams| <= nstreams
      && 0 <= offset <= |src| && 0 <= endStream <= |src|
      && (streams == [] ==> offset == endStream)
      && (streams != [] ==> offset == streams[0].offset + streams[0].readBytes && streams[0].readBytes < streams[0].size)
    }

    /** Starts streams for the chunks after the last one, up to the configured number. */
    method Open()
      requires Valid()
      modifies this`streams, this`endStream
      ensures Valid()
      ensures old(streams) <= streams
      ensures forall i :: |old(streams)| <= i < |streams| ==> fresh(streams[i])
      ensures |streams| == nstreams || endStream == |src|
      ensures streams == [] ==> offset == |src|
    {
      if endStream >= |src| {
        return;
      }
      var i := |streams|;
      while i < nstreams && endStream < |src|
        invariant Valid() && i == |streams|
        invariant old(streams) <= streams
        invariant forall j :: |old(streams)| <= j < |streams| ==> fresh(streams[j])
        invariant i > |old(streams)| || endStream < |src|
        decreases nstreams - i
      {
        var size := chunkSize;
        if endStream + size > |src| {
          size := |src| - endStream;
        }
        Append(size);
        i := i + 1;
      }
    }

    method Append(size: int)
      requires Valid() && 0 < size && endStream + size <= |src| && |streams| < nstreams
      requires size == chunkSize || endStream + size == |src| < endStream + chunkSize
      modifies this`streams, this`endStream
      ensures Valid() && endStream == old(endStream) + size
      ensures |streams| == |old(streams)| + 1 && old(streams) == streams[..|streams| - 1]
      ensures fresh(streams[|streams| - 1])
    {
      var s := new Stream(src, endStream, size);
      streams := streams + [s];
      endStream := endStream + size;
      forall i | 0 <= i < |streams| ensures TileAt(i) {
        assert i < |streams| - 1 ==> old(TileAt(i));
      }
    }

    /** Closes the head stream; closing may report an error, the stream is gone either way. */
    method PopStream(closes: bool) returns (e: Option<Error>)
      requires Tiled() && streams != []
      modifies this`streams
      ensures Tiled() && streams == old(streams)[1..]
      ensures e == if closes then None else Some(Failed)
      ensures var s := old(streams)[0];
        if streams == [] then endStream == s.offset + s.size
        else streams[0].offset == s.offset + s.size && streams[0].readBytes == 0
    {
      assert TileAt(0) && (|streams| > 1 ==> TileAt(1));
      streams := streams[1..];
      forall i | 0 <= i < |streams| ensures TileAt(i) {
        assert old(TileAt(i + 1));
      }
      e := if closes then None else Some(Failed);
    }

    /** Closes all streams and reports the first failure. */
    method PopStreams(closes: nat -> bool) returns (e: Option<Error>)
      requires Tiled()
      modifies this`streams
      ensures streams == []
      ensures e == if forall i :: 0 <= i < |old(streams)| ==> closes(i) then None else Some(Failed)
    {
      e := None;
      var i: nat := 0;
      while streams != []
        invariant Tiled() && i + |streams| == |old(streams)|
        invariant e == if forall j :: 0 <= j < i ==> closes(j) then None else Some(Failed)
        decreases |streams|
      {
        var one := PopStream(closes(i));
        if e == None {
          e := one;
        }
        i := i + 1;
      }
    }

    /** The head stream has `k` bytes more already, and does not end with them. */
    ghost predicate Held(k: nat)
      reads this`streams, streams
    {
      streams != [] && streams[0].readBytes + k <= streams[0].filled < streams[0].size
    }

    /** Reads `k` bytes unless the object ends or a stream fails. */
    method Read(k: nat, passes: nat -> Pass) returns (p: seq<byte>, e: Option<Error>)
      requires Valid()
      modifies this`streams, this`endStream, this`offset, streams
      ensures old(closed) ==> p == [] && e == Some(Closed)
      ensures Valid()
      ensures |p| <= k && offset == old(offset) + |p|
      ensures p == src[old(offset)..offset]
      ensures e == None ==> |p| == k
      ensures e == Some(Eof) ==> offset == |src| && |p| < k
      ensures !closed && Helpful(passes, chunkSize) ==>
        |p| == Min(k, |src| - old(offset)) && e == if |p| == k then None else Some(Eof)
      ensures !closed && old(Held(k)) ==>
        |p| == k && e == None
      ensures forall s :: s in streams ==> s in old(streams) || fresh(s)
    {
      if closed {
        return [], Some(Closed);
      }
      p, e := [], None;
      ghost var at, ready := offset, Held(k);
      var i: nat := 0;
      while |p| < k
        invariant Valid() && e == None && |p| <= k
        invariant offset == at + |p| && p == src[at..offset]
        invariant forall s :: s in streams ==> s in old(streams) || fresh(s)
        invariant ready && |p| < k ==> p == [] && Held(k)
        decreases k - |p|
      {
        ghost var had, m := streams, offset;
        Open();
        if streams == [] {
          return p, Some(Eof);
        }
        assert had != [] ==> streams[0] == had[0] && had[0] in had;
        var b;
        b, e := ReadHead(k - |p|, passes(i));
        Adjoin(src, at, m, offset);
        p := p + b;
        if e != None {
          return;
        }
        i := i + 1;
      }
    }

    /** Reads from the head stream and drops it once it is used up. */
    method ReadHead(k: nat, pass: Pass) returns (b: seq<byte>, e: Option<Error>)
      requires Valid() && streams != [] && k > 0
      modifies this`streams, this`offset, streams[0]
      ensures Valid()
      ensures |b| <= k && offset == old(offset) + |b| && b == src[old(offset)..offset]
      ensures e == None ==> b != []
      ensures e != Some(Eof)
      ensures |b| == Min(k, Min(old(streams[0].size), old(streams[0].filled) + Sum(pass.fetch)) - old(streams[0].readBytes))
      ensures e == if |b| == old(streams[0].size - streams[0].readBytes) && pass.closes then None
                   else if |b| == k && |b| < old(streams[0].size - streams[0].readBytes) then None else Some(Failed)
      ensures Sum(pass.fetch) >= chunkSize && pass.closes ==> e == None
      ensures old(Held(k)) ==> |b| == k && e == None
      ensures forall s :: s in streams ==> s in old(streams)
    {
      var head := streams[0];
      assert TileAt(0);
      b, e := head.Read(k, pass.fetch);
      offset := offset + |b|;
      forall i | 0 <= i < |streams| ensures TileAt(i) {
        assert old(TileAt(i));
      }
      if e == Some(Eof) {
        e := PopStream(pass.closes);
        assert streams != [] ==> TileAt(0);
      }
    }

    /**
     Moves to a new position.  Streams that end before it are dropped; when it lies
     inside the head stream the call waits for the fetch to get there; `stuck` says that
     it is waiting still when all of `fetch` has come.
     */
    method Seek(off: int, whence: Whence, fetch: seq<nat>) returns (pos: int, e: Option<Error>, stuck: bool)
      requires Valid()
      modifies this`streams, this`endStream, this`offset, streams
      ensures old(closed) ==> e == Some(Closed) && !stuck && offset == old(offset)
      ensures !stuck ==> Valid()
      ensures |streams| <= |old(streams)|
      ensures (forall s :: s in old(streams) ==> old(s.filled) + Sum(fetch) >= s.size) ==> !stuck
      ensures stuck ==> streams != []
      ensures stuck ==> var head := streams[0];
        head in old(streams) && old(head.filled) + Sum(fetch) < offset - head.offset < head.size
      ensures var to := off + (match whence case SeekStart => 0 case SeekCurrent => old(offset) case SeekEnd => |src|);
        !old(closed) ==>
          if 0 <= to < |src| then e == None && (!stuck ==> pos == offset == to)
          else e == Some(InvalidSeek) && !stuck && offset == old(offset)
    {
      stuck := false;
      if closed {
        return 0, Some(Closed), false;
      }
      var from := match whence case SeekStart => 0 case SeekCurrent => offset case SeekEnd => |src|;
      var to := from + off;
      if to < 0 || to >= |src| {
        return 0, Some(InvalidSeek), false;
      }
      if to == offset {
        return offset, None, false;
      }
      offset := to;
      DropBefore(to);
      if streams == [] {
        endStream := to;
        return to, None, false;
      }
      assert TileAt(0);
      if to < streams[0].offset {
        var ignored := PopStreams(_ => true);
        endStream := to;
        return to, None, false;
      }
      assert streams[0] in streams;
      stuck := SeekHead(to, fetch);
      return to, None, stuck;
    }

    /** Drops the streams that end at or before `to`. */
    method DropBefore(to: int)
      requires Tiled() && |streams| <= nstreams
      modifies this`streams
      ensures Tiled() && |streams| <= nstreams
      ensures streams != [] ==> to < streams[0].offset + streams[0].size
      ensures |streams| <= |old(streams)| && streams == old(streams)[|old(streams)| - |streams|..]
      ensures forall s :: s in old(streams)[..|old(streams)| - |streams|] ==> s.offset + s.size <= to
    {
      ghost var had, n := streams, 0;
      while streams != [] && to >= streams[0].offset + streams[0].size
        invariant Tiled() && |streams| <= nstreams
        invariant n <= |had| && streams == had[n..]
        invariant forall s :: s in had[..n] ==> s.offset + s.size <= to
        decreases |streams|
      {
        assert had[..n + 1] == had[..n] + [had[n]];
        var ignored := PopStream(true);
        n := n + 1;
      }
    }

    /** Waits until the head stream has been filled up to `to`, then moves its read position there. */
    method SeekHead(to: int, fetch: seq<nat>) returns (stuck: bool)
      requires Tiled() && |streams| <= nstreams && chunkSize > 0 && nstreams > 1
      requires 0 <= endStream <= |src| && offset == to
      requires streams != [] && streams[0].offset <= to < streams[0].offset + streams[0].size
      modifies streams[0]
      ensures !stuck ==> Valid()
      ensures stuck <==> old(streams[0].filled) + Sum(fetch) < to - streams[0].offset
    {
      var head := streams[0];
      assert TileAt(0);
      var streamOffset := to - head.offset;
      head.readBytes := streamOffset;
      var i := 0;
      ghost var had := head.filled;
      while head.filled < streamOffset
        invariant 0 <= i <= |fetch| && head.filled <= head.size && head.readBytes == streamOffset
        invariant head.filled == Min(head.size, had + Sum(fetch[..i]))
        decreases |fetch| - i
      {
        if i == |fetch| {
          assert fetch[..i] == fetch;
          return true;
        }
        head.Fill(fetch[i]);
        assert fetch[..i + 1][..i] == fetch[..i];
        i := i + 1;
      }
      SumGrows(fetch, i);
      head.out := streamOffset;
      forall i | 0 <= i < |streams| ensures TileAt(i) {
        assert old(TileAt(i));
      }
      return false;
    }

    method Close(closes: nat -> bool) returns (e: Option<Error>)
      requires Valid()
      modifies this`closed, this`streams, this`endStream
      ensures closed
      ensures if old(closed) then e == Some(Closed)
              else streams == [] && e == if forall i :: 0 <= i < |old(streams)| ==> closes(i) then None else Some(Failed)
    {
      if closed {
        return Some(Closed);
      }
      closed := true;
      e := PopStreams(closes);
    }
  }
}
