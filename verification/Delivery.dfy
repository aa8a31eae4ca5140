/**
 One downloader from end to end: the origin reader positioned at its start, the
 asynchronous buffer filled from it, if there is one, and the scheduler's Write as the
 sink.  `Linked`, or `RawLinked` without a buffer, holds from the opening on, through
 every fill, every write and every other step of the buffer, and makes every write the
 origin's bytes at the downloader's offset.
 */
module Delivery {
  import opened Common
  import opened Ranges
  import Buffer = StreamBuffer
  import Chunks = SequentialReader
  import Item
  import Proofs = StreamBufferProofs
  import Scheduler
  import Stripes = ParallelReader

  /******************************* The source ********************************/

  /** Chunks are fetched one after the other, or several at a time. */
  datatype Source = Sequential(chunked: Chunks.Reader) | Parallel(striped: Stripes.Reader)

  function Head(source: Source): object {
    match source
    case Sequential(r) => r
    case Parallel(r) => r
  }

  function Streams(source: Source): seq<Stripes.Stream>
    reads Head(source)
  {
    match source
    case Sequential(_) => []
    case Parallel(r) => r.streams
  }

  /** The next byte of the source is `origin[at]`. */
  ghost predicate Serves(source: Source, origin: seq<byte>, at: int)
    reads Head(source), Streams(source)
  {
    match source
    case Sequential(r) => r.Valid() && r.src == origin && r.Position() == at
    case Parallel(r) => r.Valid() && r.src == origin && r.offset == at
  }

  /** Not closed, and no failed open has left an old stream behind. */
  ghost predicate Usable(source: Source)
    reads Head(source), Streams(source)
  {
    match source
    case Sequential(r) => !r.closed && !r.Stranded()
    case Parallel(r) => !r.closed
  }

  /** What the origin does during one read of either source. */
  datatype Weather = Weather(chunked: nat -> Chunks.Answer, striped: nat -> Stripes.Pass)

  /** Opens work and streams deliver. */
  ghost predicate Fair(source: Source, w: Weather, k: nat)
    reads Head(source)
  {
    match source
    case Sequential(_) => Chunks.Helpful(w.chunked, k) && forall i :: w.chunked(i).ends
    case Parallel(r) => Stripes.Helpful(w.striped, r.chunkSize)
  }

  datatype Options = Options(chunkSize: int, chunkLimit: int, chunkStreams: int, bufferSize: int)

  method NewSource(origin: seq<byte>, o: Options) returns (source: Source)
    ensures fresh(Head(source)) && Streams(source) == [] && Serves(source, origin, 0) && Usable(source)
    ensures source.Parallel? <==> o.chunkStreams > 1
  {
    if o.chunkStreams <= 1 {
      var r := new Chunks.Reader(origin, o.chunkSize, o.chunkLimit);
      return Sequential(r);
    }
    var r := new Stripes.Reader(origin, if o.chunkSize <= 0 then -1 else o.chunkSize, o.chunkStreams);
    return Parallel(r);
  }

  /** A source that has not been read yet goes to `start`. */
  method SeekSource(source: Source, origin: seq<byte>, start: int) returns (e: Option<Error>)
    requires Serves(source, origin, 0) && Usable(source) && Streams(source) == []
    modifies Head(source), Streams(source)
    ensures Streams(source) == []
    ensures e == None <==> 0 <= start < |origin|
    ensures e == None ==> Serves(source, origin, start) && Usable(source)
  {
    match source {
      case Sequential(r) =>
        var pos;
        pos, e := r.RangeSeek(start, -1);
      case Parallel(r) =>
        var pos, stuck;
        pos, e, stuck := r.Seek(start, Stripes.SeekStart, []);
    }
  }

  /** Either reader hands out the next bytes, and reports the end only there. */
  method ReadSource(source: Source, origin: seq<byte>, ghost at: int, k: nat, w: Weather)
      returns (p: seq<byte>, e: Option<Error>)
    requires Serves(source, origin, at) && Usable(source)
    modifies Head(source), Streams(source)
    ensures forall s :: s in Streams(source) ==> s in old(Streams(source)) || fresh(s)
    ensures 0 <= at <= at + |p| <= |origin| && |p| <= k && p == origin[at..at + |p|]
    ensures e == None ==> |p| == k && Usable(source)
    ensures old(Fair(source, w, k)) ==>
      |p| == Min(k, |origin| - at) && (e.Some? ==> |p| < k && e in {Some(Eof), Some(NotSatisfiable)})
    ensures e == Some(Eof) ==> at + |p| == |origin| && |p| < k
    ensures Serves(source, origin, at + |p|)
  {
    match source {
      case Sequential(r) =>
        p, e := r.Read(k, w.chunked);
      case Parallel(r) =>
        p, e := r.Read(k, w.striped);
    }
  }

  /******************************** The input ********************************/

  /** How many buffers the stream gets; division truncates. */
  function Buffers(size: nat, bufferSize: int): int {
    if size >= bufferSize then
      if bufferSize < 0 then -(-bufferSize / Buffer.BUFFER_SIZE) else bufferSize / Buffer.BUFFER_SIZE
    else size / Buffer.BUFFER_SIZE
  }

  /** As many whole buffers as fit the object and the configured size, none if that is less than one. */
  lemma BuffersFit(size: nat, bufferSize: int)
    ensures var fits, n := Min(size, bufferSize), Buffers(size, bufferSize);
      && (n > 0 <==> fits >= Buffer.BUFFER_SIZE)
      && (fits >= 0 ==> n * Buffer.BUFFER_SIZE <= fits < (n + 1) * Buffer.BUFFER_SIZE)
  {
  }

  /** The producer may read again. */
  predicate Reads(w: Buffer.Work) {
    w.Selecting? || w.Filling? || (w.Sending? && w.b.err.None?)
  }

  ghost predicate Linked(origin: seq<byte>, source: Source, c: Buffer.Config, s: Buffer.State,
                         dl: Scheduler.Downloader)
    reads Head(source), Streams(source), dl
  {
    && Serves(source, origin, dl.start + s.prod.srcPos) && 0 <= dl.start <= |origin|
    && (Reads(s.prod.pc) ==> Usable(source))
    && c.src == origin[dl.start..] && Proofs.Reachable(c, s) && !s.past.skipped
    && dl.offset == dl.start + |s.cons.got|
  }

  /** Without a buffer the downloader copies straight from the source. */
  ghost predicate RawLinked(origin: seq<byte>, source: Source, dl: Scheduler.Downloader)
    reads Head(source), Streams(source), dl
  {
    Serves(source, origin, dl.offset) && Usable(source)
  }

  /** A downloader that has just been made seeks its source to its start and may get a buffer. */
  method Open(origin: seq<byte>, o: Options, dl: Scheduler.Downloader)
      returns (source: Source, c: Buffer.Config, s: Buffer.State, e: Option<Error>)
    requires dl.offset == dl.start
    modifies dl`hasBuffer
    ensures fresh(Head(source)) && Streams(source) == [] && (source.Parallel? <==> o.chunkStreams > 1)
    ensures e == None <==> 0 <= dl.start < |origin|
    ensures e == None ==> (dl.hasBuffer <==> Buffers(|origin|, o.bufferSize) > 0)
    ensures e == None && dl.hasBuffer ==>
      c.buffers == Buffers(|origin|, o.bufferSize) && Linked(origin, source, c, s, dl)
    ensures e == None && !dl.hasBuffer ==> RawLinked(origin, source, dl)
  {
    source := NewSource(origin, o);
    e := SeekSource(source, origin, dl.start);
    var buffers := Buffers(|origin|, o.bufferSize);
    dl.hasBuffer := e == None && buffers > 0;
    c := Buffer.Config(if e == None then origin[dl.start..] else [], if buffers > 0 then buffers else 0);
    s := Buffer.Start(c);
    assert Buffer.Run(c, s, []) == Some(s);
  }

  /** The producer fills a buffer from the source. */
  method Fetch(origin: seq<byte>, source: Source, c: Buffer.Config, s: Buffer.State, dl: Scheduler.Downloader,
               w: Weather)
      returns (n: nat, e: Option<Error>, s': Buffer.State)
    requires Linked(origin, source, c, s, dl) && s.prod.pc.Filling?
    modifies Head(source), Streams(source)
    ensures forall s :: s in Streams(source) ==> s in old(Streams(source)) || fresh(s)
    ensures Buffer.FillStep(c, s, n, e) == Some(s')
    ensures Linked(origin, source, c, s', dl)
    ensures old(Fair(source, w, s.prod.pc.cap)) ==>
      n == Min(s.prod.pc.cap, |c.src| - s.prod.srcPos) && (e.Some? ==> e in {Some(Eof), Some(NotSatisfiable)})
  {
    var p;
    p, e := ReadSource(source, origin, dl.start + s.prod.srcPos, s.prod.pc.cap, w);
    n := |p|;
    s' := Buffer.FillStep(c, s, n, e).value;
    var grown := Proofs.Grow(c, s, Buffer.Fill(n, e));
  }

  /** The scheduler's Write does not touch the source. */
  method Hand(origin: seq<byte>, source: Source, ghost at: int, dls: Scheduler.Downloaders,
              dl: Scheduler.Downloader, p: seq<byte>, wakes: seq<Scheduler.Wake>,
              fates: nat -> Item.Fate, opens: nat -> bool)
      returns (n: nat, err: Option<Error>)
    requires Serves(source, origin, at)
    requires dls.Valid() && dl in dls.dls && forall w :: w in dls.waiters ==> w.r.pos >= 0
    modifies dls, dls.dls, dls.item.ranges, dls.item.fd
    ensures Serves(source, origin, at) && Usable(source) == old(Usable(source))
    ensures Streams(source) == old(Streams(source))
    ensures dls.Valid() && n <= |p| && (err == None ==> n == |p|)
    ensures dls.item.fd != null && old(dl.offset) >= 0 && Item.Smooth(fates, |p|) ==> n == |p|
    ensures dl.start == old(dl.start) && dl.offset == old(dl.offset) + n
    ensures Item.WroteNoOverwrite(old(dls.item.ranges.rs), old(dls.item.Data()), p, old(dl.offset), n,
                                  dls.item.ranges.rs, dls.item.Data())
  {
    n, err := dls.Write(dl, p, wakes, fates, opens);
  }

  /**
   Without a buffer each round of the copy reads a stretch and hands it to the scheduler.
   Whatever the scheduler accepts is filed where it belongs; the copy goes on only when
   it has taken everything, and ends without an error only at the end of the object.
   */
  method CopyRound(origin: seq<byte>, source: Source, dls: Scheduler.Downloaders, dl: Scheduler.Downloader,
                   k: nat, w: Weather, wakes: seq<Scheduler.Wake>,
                   fates: nat -> Item.Fate, opens: nat -> bool)
      returns (p: seq<byte>, n: nat, err: Option<Error>, over: bool)
    requires RawLinked(origin, source, dl) && k > 0
    requires dls.Valid() && dl in dls.dls && forall w :: w in dls.waiters ==> w.r.pos >= 0
    modifies dls, dls.dls, dls.item.ranges, dls.item.fd, Head(source), Streams(source)
    ensures forall s :: s in Streams(source) ==> s in old(Streams(source)) || fresh(s)
    ensures dls.Valid() && n <= |p| && dl.start == old(dl.start) && dl.offset == old(dl.offset) + n
    ensures 0 <= old(dl.offset) <= old(dl.offset) + |p| <= |origin|
    ensures p == origin[old(dl.offset)..old(dl.offset) + |p|]
    ensures Item.WroteNoOverwrite(old(dls.item.ranges.rs), old(dls.item.Data()), p, old(dl.offset), n,
                                  dls.item.ranges.rs, dls.item.Data())
    ensures old(Fair(source, w, k)) ==> |p| == Min(k, |origin| - old(dl.offset))
    ensures dls.item.fd != null && Item.Smooth(fates, |p|) ==> n == |p|
    ensures !over ==> n == k && RawLinked(origin, source, dl)
    ensures n == k && err == None ==> !over
    ensures over && err == None ==> dl.offset == |origin|
  {
    var e;
    p, e := ReadSource(source, origin, dl.offset, k, w);
    n, err, over := 0, None, false;
    if p != [] {
      n, err := Hand(origin, source, dl.offset + |p|, dls, dl, p, wakes, fates, opens);
      if err != None {
        return p, n, err, true;
      }
    }
    if e != None {
      over, err := true, if e == Some(Eof) then None else e;
    }
  }

  /** What the sink is offered is the origin at the downloader's offset. */
  lemma OffersOrigin(origin: seq<byte>, source: Source, c: Buffer.Config, s: Buffer.State,
                     dl: Scheduler.Downloader, taken: nat, fails: bool)
    requires Linked(origin, source, c, s, dl) && Buffer.SinkWriteStep(s, taken, fails).Some?
    ensures var p := s.cons.cur.value.Rest();
      dl.offset + |p| <= |origin| && p == origin[dl.offset..dl.offset + |p|]
    ensures var s' := Buffer.SinkWriteStep(s, taken, fails).value;
      Proofs.Reachable(c, s') && dl.offset + taken == dl.start + |s'.cons.got|
      && s'.prod == s.prod && s'.past.skipped == s.past.skipped
  {
    Proofs.WritesAtOffset(c, s, origin, dl.start, taken, fails);
    var s' := Proofs.Grow(c, s, Buffer.SinkWrite(taken, fails));
  }

  /**
   The consumer hands the current buffer to the scheduler.  However much of it is
   accepted, and whatever error comes back, those bytes are filed where they belong
   and the next offer goes on from there.
   */
  method Deliver(origin: seq<byte>, source: Source, c: Buffer.Config, s: Buffer.State,
                 dls: Scheduler.Downloaders, dl: Scheduler.Downloader, wakes: seq<Scheduler.Wake>,
                 fates: nat -> Item.Fate, opens: nat -> bool)
      returns (p: seq<byte>, n: nat, err: Option<Error>, s': Buffer.State)
    requires Linked(origin, source, c, s, dl) && Buffer.Holds(s.cons) && s.cons.pc.call == Buffer.Writing
    requires dls.Valid() && dl in dls.dls && forall w :: w in dls.waiters ==> w.r.pos >= 0
    modifies dls, dls.dls, dls.item.ranges, dls.item.fd
    ensures dls.Valid() && n <= |p| && (err == None ==> n == |p|)
    ensures dls.item.fd != null && Item.Smooth(fates, |p|) ==> n == |p|
    ensures p == s.cons.cur.value.Rest() && 0 <= old(dl.offset) <= old(dl.offset) + |p| <= |origin|
    ensures p == origin[old(dl.offset)..old(dl.offset) + |p|]
    ensures Item.WroteNoOverwrite(old(dls.item.ranges.rs), old(dls.item.Data()), p, old(dl.offset), n,
                                  dls.item.ranges.rs, dls.item.Data())
    ensures Buffer.SinkWriteStep(s, n, err != None) == Some(s')
    ensures Linked(origin, source, c, s', dl)
  {
    p := s.cons.cur.value.Rest();
    OffersOrigin(origin, source, c, s, dl, |p|, false);
    n, err := Hand(origin, source, dl.start + s.prod.srcPos, dls, dl, p, wakes, fates, opens);
    s' := Buffer.SinkWriteStep(s, n, err != None).value;
    Sank(c, s, n, err != None);
  }

  lemma Sank(c: Buffer.Config, s: Buffer.State, taken: nat, fails: bool)
    requires Proofs.Reachable(c, s) && Buffer.SinkWriteStep(s, taken, fails).Some?
    ensures var s' := Buffer.SinkWriteStep(s, taken, fails).value;
      && Proofs.Reachable(c, s') && s'.prod == s.prod && s'.past.skipped == s.past.skipped
      && |s'.cons.got| == |s.cons.got| + taken
  {
    var s' := Proofs.Grow(c, s, Buffer.SinkWrite(taken, fails));
  }

  /** No other step of a buffer that is only copied to its sink comes between them. */
  lemma StaysLinked(origin: seq<byte>, source: Source, c: Buffer.Config, s: Buffer.State,
                    dl: Scheduler.Downloader, a: Buffer.Action)
    requires Linked(origin, source, c, s, dl) && Buffer.Step(c, s, a).Some?
    requires !a.Fill? && !a.SinkWrite? && !a.CopyOut? && !a.BeginSkip?
    ensures Linked(origin, source, c, Buffer.Step(c, s, a).value, dl)
  {
    var s' := Proofs.Grow(c, s, a);
    Unmoved(c, s, a);
  }

  lemma Unmoved(c: Buffer.Config, s: Buffer.State, a: Buffer.Action)
    requires Buffer.Step(c, s, a).Some? && !a.Fill? && !a.SinkWrite? && !a.CopyOut? && !a.BeginSkip?
    ensures var s' := Buffer.Step(c, s, a).value;
      && s'.cons.got == s.cons.got && s'.prod.srcPos == s.prod.srcPos && s'.past.skipped == s.past.skipped
      && (Reads(s'.prod.pc) ==> Reads(s.prod.pc))
  {
    match a
    case TakeToken =>
    case Send =>
    case SeeExit =>
    case Begin(call) =>
    case Refill =>
    case Receive =>
    case SkipRound =>
    case Repay =>
    case Return =>
    case StopBuffering =>
    case BeginAbandon =>
    case Drain =>
  }
}
