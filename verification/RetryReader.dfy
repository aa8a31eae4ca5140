/**
 The reader that survives failing origin streams by reopening them at the byte it
 had reached.  Streams may fail at any read and any open; the bytes handed out are
 the flat bytes of the requested range all the same.
 */
module RetryReader {
  import opened Common
  import opened Ranges

  /** An inclusive byte span; a negative end means through the end of the object. */
  datatype Span = Span(start: int, end: int)

  /** The half-open range the adapter asks the origin for, or None when it refuses. */
  function Resolve(size: nat, span: Option<Span>): Option<(int, int)> {
    var start := if span.None? then 0 else span.value.start;
    var end := if span.None? || span.value.end < 0 then size else span.value.end + 1;
    if start < 0 || start >= size then None
    else
      var stop := Min(end, size);
      if stop <= start then None else Some((start, stop))
  }

  /** What the origin does with one read of a stream: how far it gets, and whether it fails. */
  datatype Answer = Answer(reach: nat, err: Option<Error>)

  /** The read brings an error, or not a single byte. */
  predicate Fails(a: Answer) {
    a.reach == 0 || a.err.Some?
  }

  class Reader {
    const src: seq<byte>
    const baseSpan: Option<Span>
    const start: int
    const end: int
    const maxTries: nat
    var rcPos: int          // the open stream delivers src[rcPos..rcEnd]
    var rcEnd: int
    var offset: int         // relative to start
    var tries: nat
    var err: Option<Error>
    var isOpen: bool
    ghost var out: seq<byte>
    ghost var opens: nat

    constructor (src: seq<byte>, span: Option<Span>, maxTries: nat)
      ensures this.src == src && this.baseSpan == span && this.maxTries == maxTries
      ensures Fresh()
    {
      this.src, this.baseSpan, this.maxTries := src, span, maxTries;
      this.start := if span.Some? then span.value.start else 0;
      this.end := if span.Some? && span.value.end >= 0 then span.value.end + 1 else |src|;
      rcPos, rcEnd, offset, tries, err, isOpen, out, opens := 0, 0, 0, 0, None, false, [], 0;
    }

    ghost predicate Shape() {
      && start == (if baseSpan.Some? then baseSpan.value.start else 0)
      && end == (if baseSpan.Some? && baseSpan.value.end >= 0 then baseSpan.value.end + 1 else |src|)
    }

    /** Made, but not open yet. */
    ghost predicate Fresh()
      reads this
    {
      Shape() && offset == 0 && tries == 0 && err == None && !isOpen && out == [] && opens == 0
    }

    /** The position after the last byte of the range. */
    function Limit(): int {
      Min(end, |src|)
    }

    ghost predicate Valid()
      reads this
    {
      && Shape()
      && 0 <= start < Limit() && 0 <= offset <= Limit() - start
      && out == src[start..start + offset]
      && opens <= tries && opens <= maxTries
      && (isOpen ==> rcPos == start + offset && rcEnd == Limit())
      && (err == None ==> isOpen && tries <= maxTries)
      && err != Some(Eof)
    }

    /** The span for the next open: the request itself, or what is left of it. */
    function SpanForOpen(): Option<Span>
      reads this
    {
      if offset == 0 then baseSpan
      else Some(Span(start + offset, if end >= 0 then end - 1 else -1))
    }

    /** Every reopened span resolves to exactly the bytes not handed out yet. */
    lemma SpanResumes()
      requires Shape() && 0 <= start && 0 <= offset
      ensures var r := Resolve(|src|, SpanForOpen());
        && (r.Some? ==> r.value == (start + offset, Limit()) && start + offset < Limit())
        && (r.None? && offset > 0 && end > 0 ==> start + offset >= Limit())
    {
    }

    method Open(works: bool) returns (e: Option<Error>)
      requires Valid() || Fresh()
      requires !isOpen
      modifies this
      ensures e == None ==> Valid() && err == None && opens == old(opens) + 1
      ensures e.Some? ==> err == e && !isOpen && opens <= old(opens) + 1 && opens <= tries && opens <= Max(old(opens), maxTries)
      ensures old(Valid()) ==> Valid()
      ensures out == old(out) && offset == old(offset) && tries == old(tries) + 1
      ensures tries > maxTries ==> e.Some? && opens == old(opens)
      ensures tries <= maxTries ==> opens == old(opens) + 1
      ensures e == if tries > maxTries then Some(TooManyOpens)
                   else if Resolve(|src|, SpanForOpen()).None? then Some(NotSatisfiable)
                   else if works then None else Some(Failed)
    {
      tries := tries + 1;
      if tries > maxTries {
        err := Some(TooManyOpens);
        return err;
      }
      opens := opens + 1;
      var r := Resolve(|src|, SpanForOpen());
      if r.None? {
        err := Some(NotSatisfiable);
        return err;
      }
      if !works {
        err := Some(Failed);
        return err;
      }
      rcPos, rcEnd := r.value.0, r.value.1;
      err, isOpen := None, true;
      return None;
    }

    /** One read of the origin stream: some bytes, or an error, or both. */
    method StreamRead(k: nat, a: Answer) returns (b: seq<byte>, e: Option<Error>)
      requires Valid() && isOpen && k > 0
      modifies this`rcPos
      ensures |b| == Min(a.reach, Min(k, rcEnd - old(rcPos))) && rcPos == old(rcPos) + |b| <= rcEnd
      ensures b == src[old(rcPos)..old(rcPos) + |b|]
      ensures e == if a.err.Some? && a.err != Some(Eof) then a.err
                   else if rcPos == rcEnd && (|b| == 0 || a.err == Some(Eof)) then Some(Eof)
                   else if |b| == 0 || a.err == Some(Eof) then Some(Failed)
                   else None
    {
      var m := Min(a.reach, Min(k, rcEnd - rcPos));
      b := src[rcPos..rcPos + m];
      rcPos := rcPos + m;
      e := a.err;
      if (e == None && m == 0) || e == Some(Eof) {
        e := if rcPos == rcEnd then Some(Eof) else Some(Failed);
      }
    }

    /** Why a read has given up: its error must not be retried, or the rest could not be reopened, was none, or was not allowed again. */
    ghost predicate GaveUp(streams: nat -> Answer, works: nat -> bool, e: Error)
      reads `tries, `offset
    {
      || (e == Terminal && exists i :: streams(i).err == Some(Terminal))
      || (exists i :: !works(i))
      || tries > maxTries || start + offset == Limit()
    }

    /** Fills a buffer of `k` bytes unless the range ends or the stream cannot be recovered. */
    method Read(k: nat, streams: nat -> Answer, works: nat -> bool) returns (p: seq<byte>, e: Option<Error>)
      requires Valid()
      modifies this
      ensures Valid()
      ensures |p| <= k && out == old(out) + p && offset == old(offset) + |p|
      ensures e == None ==> |p| == k && err == None
      ensures e == Some(Eof) ==> start + offset == Limit() && err == None
      ensures old(err).Some? ==> p == [] && e == old(err)
      ensures old(err) == None && e.Some? && e != Some(Eof) ==> err.Some? && GaveUp(streams, works, e.value)
      ensures e == Some(Terminal) && old(err) == None ==> err == Some(Terminal)
      ensures (forall i :: !Fails(streams(i))) ==>
        tries == old(tries) && opens == old(opens) && (old(err) == None ==> e in {None, Some(Eof)})
      ensures tries <= Max(old(tries), maxTries + 1)
    {
      if err != None {
        return [], err;
      }
      p, e := [], None;
      var i: nat := 0;
      while |p| < k && e == None
        invariant Valid() && |p| <= k
        invariant out == old(out) + p && offset == old(offset) + |p|
        invariant e == None ==> err == None
        invariant e == Some(Eof) ==> start + offset == Limit() && err == None
        invariant e.Some? && e != Some(Eof) ==> err.Some? && GaveUp(streams, works, e.value)
        invariant e == Some(Terminal) ==> err == e
        invariant (forall j :: !Fails(streams(j))) ==> tries == old(tries) && opens == old(opens) && e in {None, Some(Eof)}
        invariant tries <= Max(old(tries), maxTries + 1)
        decreases maxTries + 1 - tries, k - |p|, e == None
      {
        var b;
        b, e := ReadOnce(k - |p|, streams(i), works(i));
        p := p + b;
        i := i + 1;
      }
    }

    /** One read of the stream; after a failure the rest of the range is opened again. */
    method ReadOnce(k: nat, a: Answer, works: bool) returns (b: seq<byte>, e: Option<Error>)
      requires Valid() && err == None && k > 0
      modifies this
      ensures Valid()
      ensures |b| <= k && out == old(out) + b && offset == old(offset) + |b|
      ensures |b| == Min(a.reach, Min(k, Limit() - start - old(offset)))
      ensures e == None ==> err == None && (tries == old(tries) ==> b != [])
      ensures e == Some(Eof) ==> start + offset == Limit() && err == None
      ensures e.Some? && e != Some(Eof) ==>
        err.Some? && ((e == Some(Terminal) && a.err == e && err == e)
                      || (e != Some(Terminal) && (!works || tries > maxTries || start + offset == Limit())))
      ensures !Fails(a) ==> tries == old(tries) && opens == old(opens) && e in {None, Some(Eof)}
      ensures old(tries) <= tries <= old(tries) + 1
    {
      b, e := StreamRead(k, a);
      offset := offset + |b|;
      out := out + b;
      assert out == src[start..start + offset];
      if e != None && e != Some(Eof) {
        err := e;
        if e != Some(Terminal) {
          var again := Reopen(works);
          if again == None {
            e := None;
          }
        }
      }
    }

    /** Gives up the failed stream and opens the rest of the range, unless none is left. */
    method Reopen(works: bool) returns (e: Option<Error>)
      requires Valid() && err.Some?
      modifies this
      ensures Valid() && (e == None <==> err == None)
      ensures out == old(out) && offset == old(offset) && tries == old(tries) + 1
      ensures e == None <==> tries <= maxTries && works && start + offset < Limit()
      ensures e == None ==> isOpen
    {
      isOpen := false;
      SpanResumes();
      e := Open(works);
    }

    method Close() returns (e: Option<Error>)
      requires Valid()
      modifies this
      ensures Valid() && out == old(out)
      ensures e == None <==> old(isOpen)
      ensures !isOpen
      ensures old(isOpen) ==> err == Some(Closed)
    {
      if !isOpen {
        return Some(Closed);
      }
      isOpen := false;
      err := Some(Closed);
      return None;
    }
  }

  /** Opens the range for the first time; the first open counts as a try. */
  method OpenRetrying(src: seq<byte>, span: Option<Span>, maxTries: nat, works: bool) returns (h: Reader?, e: Option<Error>)
    ensures h != null <==> e == None
    ensures h != null ==> fresh(h) && h.Valid() && h.src == src && h.out == [] && h.maxTries == maxTries
    ensures h != null ==> Resolve(|src|, span) == Some((h.start, h.Limit()))
    ensures h != null <==> maxTries > 0 && works && Resolve(|src|, span).Some?
    ensures h != null ==> h.tries == 1 && h.opens == 1 && h.err == None
  {
    var r := new Reader(src, span, maxTries);
    e := r.Open(works);
    h := if e == None then r else null;
  }

  /** Reads with any pattern of buffer sizes: together they are the next flat bytes of the range. */
  method Drain(h: Reader, sizes: seq<nat>, streams: nat -> nat -> Answer, works: nat -> nat -> bool) returns (all: seq<byte>, ended: bool)
    requires h.Valid()
    modifies h
    ensures h.Valid()
    ensures h.offset >= old(h.offset)
    ensures all == h.src[h.start + old(h.offset)..h.start + h.offset]
    ensures ended ==> h.start + h.offset == h.Limit()
    ensures h.opens <= h.maxTries
  {
    all, ended := [], false;
    for i := 0 to |sizes|
      invariant h.Valid() && !ended
      invariant h.offset >= old(h.offset) && all == h.src[h.start + old(h.offset)..h.start + h.offset]
    {
      ghost var was := h.out;
      var p, e := h.Read(sizes[i], streams(i), works(i));
      all := all + p;
      assert h.out == was + p;
      if e == Some(Eof) {
        return all, true;
      }
    }
  }
}
