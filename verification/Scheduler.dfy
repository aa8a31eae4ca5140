/**
 The range scheduler of one item: which downloader serves a request, who waits,
 and what every waiter is told.  Each method is what runs under the scheduler
 lock; what the origin and the clock do is left to nondeterministic answers.
 */
module Scheduler {
  import opened Common
  import opened Ranges
  import RangeQueries
  import Item

  const MAX_SKIP_BYTES := 1024 * 1024
  const MAX_ERROR_COUNT := 10
  const MIN_WINDOW := 1024 * 1024

  datatype Waiter = Waiter(id: nat, r: Range)

  /** A value sent on a waiter's channel; None is a nil error. */
  datatype Answer = Answer(w: Waiter, err: Option<Error>)

  /** One background fetch. */
  class Downloader {
    var start: int
    var offset: int
    var maxOffset: int
    var skipped: int
    var closed: bool
    var stop: bool
    var hasBuffer: bool

    constructor (r: Range, buffered: bool)
      ensures start == offset == r.pos && maxOffset == r.End()
      ensures !closed && !stop && skipped == 0 && hasBuffer == buffered
    {
      start, offset, maxOffset, skipped := r.pos, r.pos, r.End(), 0;
      closed, stop, hasBuffer := false, false, buffered;
    }

    /** Asks the downloader to go at least as far as `r`. */
    method SetRange(r: Range)
      modifies this`maxOffset
      ensures maxOffset == Max(old(maxOffset), r.End())
    {
      if r.End() > maxOffset {
        maxOffset := r.End();
      }
    }
  }

  /**************************** Specification ********************************/

  /** The number of errors since the last download that brought bytes without error. */
  function ErrorsSince(log: seq<(int, Option<Error>)>): nat {
    if log == [] then 0
    else
      var (n, err) := log[|log| - 1];
      if err.Some? then ErrorsSince(log[..|log| - 1]) + 1
      else if n != 0 then 0
      else ErrorsSince(log[..|log| - 1])
  }

  /** The last error since then. */
  function LastError(log: seq<(int, Option<Error>)>): Option<Error> {
    if log == [] then None
    else
      var (n, err) := log[|log| - 1];
      if err.Some? then err
      else if n != 0 then None
      else LastError(log[..|log| - 1])
  }

  /** Whoever waits is failed: the disk is full, or too much has failed since a download brought bytes. */
  predicate Hopeless(log: seq<(int, Option<Error>)>) {
    LastError(log) == Some(NoSpace) || ErrorsSince(log) > MAX_ERROR_COUNT
  }

  /** Only failed opens have been logged in between. */
  ghost predicate Failing(log: seq<(int, Option<Error>)>, log': seq<(int, Option<Error>)>) {
    log <= log' && forall i :: |log| <= i < |log'| ==> log'[i] == (0, Some(Failed))
  }

  /** Every stream that is asked for can be opened. */
  ghost predicate AllOpen(opens: nat -> bool) {
    forall i :: opens(i)
  }

  /** What a failed open adds to the log. */
  function Failure(err: Option<Error>): seq<(int, Option<Error>)> {
    if err.Some? then [(0, err)] else []
  }

  /** It is an error in the log behind which nothing has failed or brought bytes, and it is known exactly while errors count. */
  lemma {:induction false} LastErrorLogged(log: seq<(int, Option<Error>)>) returns (i: nat)
    ensures LastError(log).Some? <==> ErrorsSince(log) > 0
    ensures LastError(log).Some? ==> i < |log| && log[i].1 == LastError(log)
    ensures LastError(log).Some? ==> forall j :: i < j < |log| ==> log[j].1 == None && !Success(log[j])
    decreases |log|
  {
    i := 0;
    if log != [] {
      if log[|log| - 1].1.Some? {
        i := |log| - 1;
      } else if log[|log| - 1].0 == 0 {
        i := LastErrorLogged(log[..|log| - 1]);
      }
    }
  }

  lemma ErrorsPush(log: seq<(int, Option<Error>)>, n: int, err: Option<Error>)
    ensures ErrorsSince(log + [(n, err)]) ==
            if err.Some? then ErrorsSince(log) + 1 else if n != 0 then 0 else ErrorsSince(log)
    ensures LastError(log + [(n, err)]) == if err.Some? then err else if n != 0 then None else LastError(log)
  {
    assert (log + [(n, err)])[..|log|] == log;
  }

  /** A download that brought bytes and did not fail. */
  predicate Success(entry: (int, Option<Error>)) {
    entry.1 == None && entry.0 != 0
  }

  function Failures(log: seq<(int, Option<Error>)>): nat {
    if log == [] then 0
    else Failures(log[..|log| - 1]) + if log[|log| - 1].1.Some? then 1 else 0
  }

  /** The count is that of the failures after the last success, wherever that was. */
  lemma {:induction false} ErrorsSinceSuccess(log: seq<(int, Option<Error>)>) returns (k: nat)
    ensures k <= |log| && (k > 0 ==> Success(log[k - 1]))
    ensures forall i :: k <= i < |log| ==> !Success(log[i])
    ensures ErrorsSince(log) == Failures(log[k..])
    decreases |log|
  {
    if log == [] {
      k := 0;
    } else if Success(log[|log| - 1]) {
      k := |log|;
    } else {
      k := ErrorsSinceSuccess(log[..|log| - 1]);
      assert log[k..][..|log| - k - 1] == log[..|log| - 1][k..];
    }
  }

  /** What `waiter` waits for is cached. */
  predicate Ready(rs: seq<Range>, size: int, w: Waiter) {
    RangeQueries.Present(rs, w.r.Clip(size))
  }

  function Unready(rs: seq<Range>, size: int, ws: seq<Waiter>): seq<Waiter> {
    if ws == [] then []
    else
      var front, last := Unready(rs, size, ws[..|ws| - 1]), ws[|ws| - 1];
      if Ready(rs, size, last) then front else front + [last]
  }

  function Served(rs: seq<Range>, size: int, ws: seq<Waiter>): seq<Answer> {
    if ws == [] then []
    else
      var front, last := Served(rs, size, ws[..|ws| - 1]), ws[|ws| - 1];
      if Ready(rs, size, last) then front + [Answer(last, None)] else front
  }

  function AllTold(ws: seq<Waiter>, err: Option<Error>): seq<Answer> {
    seq(|ws|, i requires 0 <= i < |ws| => Answer(ws[i], err))
  }

  function Told(answers: seq<Answer>): multiset<Waiter> {
    if answers == [] then multiset{}
    else Told(answers[..|answers| - 1]) + multiset{answers[|answers| - 1].w}
  }

  lemma {:induction false} ToldConcat(a: seq<Answer>, b: seq<Answer>)
    ensures Told(a + b) == Told(a) + Told(b)
    decreases |b|
  {
    if b == [] {
      assert a + b == a;
    } else {
      assert (a + b)[..|a + b| - 1] == a + b[..|b| - 1];
      ToldConcat(a, b[..|b| - 1]);
    }
  }

  /** Whoever was ever queued is queued still or has been told, once. */
  ghost predicate Tallied(ws: seq<Waiter>, answers: seq<Answer>, queued: multiset<Waiter>) {
    multiset(ws) + Told(answers) == queued
  }

  /** Telling some waiters moves them from the queue to the record. */
  lemma StillTallied(ws: seq<Waiter>, answers: seq<Answer>, queued: multiset<Waiter>,
                     rest: seq<Waiter>, more: seq<Answer>)
    requires Tallied(ws, answers, queued) && Tallied(rest, more, multiset(ws))
    ensures Tallied(rest, answers + more, queued)
  {
    ToldConcat(answers, more);
    var r, m, a := multiset(rest), Told(more), Told(answers);
    assert r + (a + m) == (r + m) + a;
  }

  lemma QueuedOnce(ws: seq<Waiter>, answers: seq<Answer>, queued: multiset<Waiter>, w: Waiter)
    requires Tallied(ws, answers, queued)
    ensures Tallied(ws + [w], answers, queued + multiset{w})
  {
    var q, told := multiset(ws), Told(answers);
    assert multiset(ws + [w]) == q + multiset{w};
    assert (q + multiset{w}) + told == (q + told) + multiset{w};
  }

  lemma {:induction false} AllToldTells(ws: seq<Waiter>, err: Option<Error>)
    ensures Told(AllTold(ws, err)) == multiset(ws) && Tallied([], AllTold(ws, err), multiset(ws))
    ensures |AllTold(ws, err)| == |ws|
    ensures forall i :: 0 <= i < |ws| ==> AllTold(ws, err)[i].w == ws[i] && AllTold(ws, err)[i].err == err
    decreases |ws|
  {
    if ws != [] {
      var front := ws[..|ws| - 1];
      assert AllTold(ws, err)[..|ws| - 1] == AllTold(front, err);
      AllToldTells(front, err);
      assert ws == front + [ws[|ws| - 1]];
    }
  }

  /** Filtering splits the waiters: each is either still queued or told, once. */
  lemma {:induction false} FilterSplits(rs: seq<Range>, size: int, ws: seq<Waiter>)
    ensures Tallied(Unready(rs, size, ws), Served(rs, size, ws), multiset(ws))
    decreases |ws|
  {
    if ws != [] {
      var front, last := ws[..|ws| - 1], ws[|ws| - 1];
      FilterSplits(rs, size, front);
      var left, sent := Unready(rs, size, front), Served(rs, size, front);
      assert ws == front + [last];
      OneMore(multiset(left), Told(sent), multiset(front), last);
      if Ready(rs, size, last) {
        assert (sent + [Answer(last, None)])[..|sent|] == sent;
      } else {
        assert multiset(left + [last]) == multiset(left) + multiset{last};
      }
    }
  }

  lemma OneMore(left: multiset<Waiter>, told: multiset<Waiter>, all: multiset<Waiter>, w: Waiter)
    requires left + told == all
    ensures left + (told + multiset{w}) == all + multiset{w}
    ensures (left + multiset{w}) + told == all + multiset{w}
  {
  }

  lemma FilterStep(rs: seq<Range>, size: int, ws: seq<Waiter>, i: nat)
    requires i < |ws|
    ensures Unready(rs, size, ws[..i + 1]) ==
            Unready(rs, size, ws[..i]) + if Ready(rs, size, ws[i]) then [] else [ws[i]]
    ensures Served(rs, size, ws[..i + 1]) ==
            Served(rs, size, ws[..i]) + if Ready(rs, size, ws[i]) then [Answer(ws[i], None)] else []
  {
    assert ws[..i + 1][..i] == ws[..i];
  }

  lemma Overwritten(buf: seq<Waiter>, k: nat, w: Waiter)
    requires k < |buf|
    ensures buf[k := w][..k + 1] == buf[..k] + [w]
  {
  }

  /** A nil from the dispatcher means the clipped range is cached. */
  lemma {:induction false} ServedReady(rs: seq<Range>, size: int, ws: seq<Waiter>, a: Answer)
    requires a in Served(rs, size, ws) && Canonical(rs)
    ensures a.w in ws && a.err == None
    ensures CoversAll(rs, a.w.r.Clip(size).pos, a.w.r.Clip(size).End())
    decreases |ws|
  {
    var front, last := ws[..|ws| - 1], ws[|ws| - 1];
    if Ready(rs, size, last) && a == Answer(last, None) {
      PresentMeansCached(rs, last.r.Clip(size));
    } else {
      ServedReady(rs, size, front, a);
    }
  }

  /** Whoever is not served lacks a byte. */
  lemma {:induction false} UnreadyLacks(rs: seq<Range>, size: int, ws: seq<Waiter>, w: Waiter)
    requires w in Unready(rs, size, ws) && Canonical(rs)
    ensures w in ws && !CoversAll(rs, w.r.Clip(size).pos, w.r.Clip(size).End())
    decreases |ws|
  {
    var front, last := ws[..|ws| - 1], ws[|ws| - 1];
    if !Ready(rs, size, last) && w == last {
      RangeQueries.PresentExact(rs, last.r.Clip(size));
    } else {
      UnreadyLacks(rs, size, front, w);
    }
  }

  lemma PresentMeansCached(rs: seq<Range>, r: Range)
    requires Canonical(rs) && RangeQueries.Present(rs, r)
    ensures CoversAll(rs, r.pos, r.End())
  {
    RangeQueries.PresentExact(rs, r);
  }

  /****************************** The scheduler ******************************/

  class Downloaders {
    const item: Item.Item
    const srcSize: int
    const bufferSize: int
    const readAhead: int
    var dls: seq<Downloader>
    var waiters: seq<Waiter>
    var errorCount: nat
    var lastErr: Option<Error>
    ghost var answers: seq<Answer>
    ghost var queued: multiset<Waiter>
    ghost var log: seq<(int, Option<Error>)>

    constructor (item: Item.Item, srcSize: int, bufferSize: int, readAhead: int)
      requires item.Valid()
      ensures Valid() && this.item == item && this.srcSize == srcSize
      ensures this.bufferSize == bufferSize && this.readAhead == readAhead
      ensures dls == [] && waiters == [] && answers == []
    {
      this.item, this.srcSize, this.bufferSize, this.readAhead := item, srcSize, bufferSize, readAhead;
      dls, waiters, errorCount, lastErr := [], [], 0, None;
      answers, queued, log := [], multiset{}, [];
    }

    /** What every downloader has passed is cached. */
    ghost predicate Coverage()
      reads `dls, item, item.ranges, dls
    {
      forall dl :: dl in dls ==> dl.start <= dl.offset && CoversAll(item.ranges.rs, dl.start, dl.offset)
    }

    /** Nobody is lost or told twice, and the error count is what the log says. */
    ghost predicate Accounts()
      reads `waiters, `answers, `queued, `errorCount, `lastErr, `log
    {
      && Tallied(waiters, answers, queued)
      && errorCount == ErrorsSince(log)
      && lastErr == LastError(log)
    }

    ghost predicate Valid()
      reads this, item, item.ranges, dls
    {
      item.Valid() && Coverage() && Accounts()
    }

    function Window(): (w: int)
      ensures w >= bufferSize && w >= MIN_WINDOW && (w == bufferSize || w == MIN_WINDOW)
    {
      Max(bufferSize, MIN_WINDOW)
    }

    function Extended(r: Range): (x: Range)
      ensures x.pos == r.pos && x.End() == r.End() + Max(readAhead, 0)
    {
      if readAhead > 0 then Range(r.pos, r.size + readAhead) else r
    }

    /** `b` is the first byte of the request, read-ahead included, that is not cached. */
    ghost predicate Missing(r: Range, b: int)
      reads item, item.ranges
    {
      Item.FirstMissing(item.ranges.rs, Extended(r), item.size, b)
    }

    /** Somebody is going to bring the first byte that the request lacks, and to go on to its end. */
    ghost predicate Provided(r: Range)
      reads item, item.ranges, `dls, dls
    {
      forall b :: Missing(r, b) ==> Serves(b, Min(Extended(r).End(), item.size))
    }

    ghost predicate ProvidedUpTo(ws: seq<Waiter>, n: nat)
      reads item, item.ranges, `dls, dls
      requires n <= |ws|
    {
      forall j :: 0 <= j < n ==> Provided(ws[j].r)
    }

    ghost predicate ProvidedAll(ws: seq<Waiter>)
      reads item, item.ranges, `dls, dls
    {
      ProvidedUpTo(ws, |ws|)
    }

    method CountErrors(n: int, err: Option<Error>)
      requires Valid()
      modifies this`errorCount, this`lastErr, this`log
      ensures Valid()
      ensures log == old(log) + [(n, err)]
    {
      ErrorsPush(log, n, err);
      var known := LastErrorLogged(log);
      log := log + [(n, err)];
      if err == None && n != 0 {
        if errorCount != 0 {
          errorCount := 0;
          lastErr := None;
        }
        return;
      }
      if err != None {
        errorCount := errorCount + 1;
        lastErr := err;
      }
    }

    /** Drops closed downloaders, writing the kept ones over the front of the same list. */
    method RemoveClosed()
      requires Valid()
      modifies this`dls
      ensures Valid()
      ensures forall dl :: dl in dls <==> dl in old(dls) && !dl.closed
      ensures forall b :: Near(b) == old(Near(b))
    {
      var buf, k := dls, 0;
      for i := 0 to |dls|
        invariant k <= i && |buf| == |dls|
        invariant forall j :: i <= j < |dls| ==> buf[j] == dls[j]
        invariant forall dl :: dl in buf[..k] <==> dl in dls[..i] && !dl.closed
      {
        var dl := buf[i];
        assert dls[..i + 1] == dls[..i] + [dl];
        if !dl.closed {
          buf := buf[k := dl];
          k := k + 1;
          assert buf[..k] == buf[..k - 1] + [dl];
        }
      }
      assert dls[..|dls|] == dls;
      dls := buf[..k];
    }

    /** An unclosed downloader is close enough behind `b`. */
    ghost predicate Near(b: int)
      reads `dls, dls
    {
      exists dl :: dl in dls && !dl.closed && dl.start <= b < dl.offset + Window()
    }

    /** Some unclosed downloader will reach `b` within its window and go on to `end`. */
    ghost predicate Serves(b: int, end: int)
      reads `dls, dls
    {
      exists dl :: dl in dls && !dl.closed && dl.start <= b && dl.offset <= b < dl.offset + Window()
                   && dl.maxOffset >= end
    }

    /**
     Finds or starts a downloader for the first missing byte of `r`; `opens` says
     whether a new source stream can be opened.
     */
    method EnsureDownloader(r: Range, opens: bool, buffered: bool) returns (err: Option<Error>)
      requires Valid() && r.pos >= 0
      modifies this`dls, this`errorCount, this`lastErr, this`log, dls
      ensures Valid()
      ensures forall dl :: dl in old(dls) ==> unchanged(dl`start, dl`offset, dl`closed) && dl.maxOffset >= old(dl.maxOffset)
      ensures forall dl :: dl in old(dls) && !dl.closed ==> dl in dls
      ensures fresh(set dl | dl in dls && dl !in old(dls))
      ensures err == None ==> Provided(r)
      ensures forall b :: Missing(r, b) ==>
        && err == (if !opens && !old(Near(b)) then Some(Failed) else None)
        && (old(Near(b)) ==> forall dl :: dl in dls ==> dl in old(dls))
      ensures (forall b :: !Missing(r, b)) ==> err == None && forall dl :: dl in dls ==> dl in old(dls)
      ensures opens ==> err == None
      ensures log == old(log) + Failure(err)
    {
      var want, startNew := Target(r);
      label Chosen:
      err := Provide(want, startNew, opens, buffered);
      forall b | Missing(r, b)
        ensures want.size > 0 && want.pos == b && want.End() == Min(Extended(r).End(), item.size)
      {
        assert old@Chosen(Missing(r, b));
      }
      if want.size > 0 {
        assert Missing(r, want.pos);
      }
    }

    /** Reuses a downloader that is near enough, or starts one if there is something to fetch. */
    method Provide(want: Range, startNew: bool, opens: bool, buffered: bool) returns (err: Option<Error>)
      requires Valid() && want.size >= 0
      requires want.size > 0 ==> startNew && !Covers(item.ranges.rs, want.pos)
      modifies this`dls, this`errorCount, this`lastErr, this`log, dls
      ensures Valid()
      ensures forall dl :: dl in old(dls) ==> unchanged(dl`start, dl`offset, dl`closed) && dl.maxOffset >= old(dl.maxOffset)
      ensures forall dl :: dl in old(dls) && !dl.closed ==> dl in dls
      ensures fresh(set dl | dl in dls && dl !in old(dls))
      ensures err == None && want.size > 0 ==> Serves(want.pos, want.End())
      ensures err == if !opens && want.size > 0 && !old(Near(want.pos)) then Some(Failed) else None
      ensures want.size == 0 || old(Near(want.pos)) ==> forall dl :: dl in dls ==> dl in old(dls)
      ensures log == old(log) + Failure(err)
    {
      RemoveClosed();
      assert forall i :: 0 <= i < |dls| ==> dls[i] in old(dls);
      var reused, at := Reuse(want);
      if reused || !startNew || want.size == 0 {
        return None;
      }
      err := OpenNew(want, opens, buffered);
    }

    /** A downloader whose stream cannot be opened is not added, only counted. */
    method OpenNew(want: Range, opens: bool, buffered: bool) returns (err: Option<Error>)
      requires Valid() && want.size > 0
      modifies this`dls, this`errorCount, this`lastErr, this`log
      ensures Valid()
      ensures forall dl :: dl in old(dls) ==> unchanged(dl`start, dl`offset, dl`closed) && dl.maxOffset >= old(dl.maxOffset)
      ensures forall dl :: dl in old(dls) && !dl.closed ==> dl in dls
      ensures fresh(set dl | dl in dls && dl !in old(dls))
      ensures err == None ==> Serves(want.pos, want.End())
      ensures err == if opens then None else Some(Failed)
      ensures log == old(log) + Failure(err)
    {
      if !opens {
        CountErrors(0, Some(Failed));
        return Some(Failed);
      }
      StartDownloader(want, buffered);
      return None;
    }

    /** What to look for: the missing part, or an empty range a window ahead when nothing is missing. */
    method Target(r: Range) returns (want: Range, startNew: bool)
      requires Valid() && r.pos >= 0
      ensures want.size >= 0
      ensures forall b :: Missing(r, b) ==> want.size > 0 && want.pos == b
      ensures want.size > 0 ==>
        startNew && Missing(r, want.pos) && want.End() == Min(Extended(r).End(), item.size)
      ensures want.size == 0 ==> (startNew ==> !Covers(item.ranges.rs, want.pos) && want.pos < item.size)
    {
      var req := Extended(r);
      want := item.FindMissing(req);
      startNew := true;
      if want.IsEmpty() {
        var ahead := Range(want.pos, want.size + bufferSize);
        var clipped := item.FindMissing(ahead);
        if clipped.IsEmpty() {
          startNew := false;
          want := Range(ahead.End(), 0);
        } else {
          want := Range(clipped.pos, 0);
        }
      }
    }

    method StartDownloader(want: Range, buffered: bool)
      requires Valid() && want.size > 0
      modifies this`dls
      ensures Valid()
      ensures exists dl :: fresh(dl) && dls == old(dls) + [dl]
      ensures Serves(want.pos, want.End())
    {
      var dl := new Downloader(want, buffered);
      dls := dls + [dl];
      assert dl in dls;
    }

    /** Extends the first downloader that is close enough behind `want`. */
    method Reuse(want: Range) returns (found: bool, ghost at: nat)
      requires Valid() && forall dl :: dl in dls ==> !dl.closed
      modifies dls
      ensures Valid()
      ensures forall dl :: dl in old(dls) ==> unchanged(dl`start, dl`offset, dl`closed) && dl.maxOffset >= old(dl.maxOffset)
      ensures forall dl :: dl in old(dls) && !dl.closed ==> dl in dls
      ensures found <==> old(Near(want.pos))
      ensures found ==> at < |dls| && dls[at].maxOffset == Max(old(dls[at].maxOffset), want.End())
      ensures forall dl :: dl in dls && !(found && dl == dls[at]) ==> unchanged(dl)
      ensures found && want.size > 0 && !Covers(item.ranges.rs, want.pos) ==> Serves(want.pos, want.End())
    {
      for i := 0 to |dls|
        invariant Valid()
        invariant forall dl :: dl in dls ==> unchanged(dl)
        invariant forall j :: 0 <= j < i ==> !(dls[j].start <= want.pos < dls[j].offset + Window())
      {
        var dl := dls[i];
        if want.pos >= dl.start && want.pos < dl.offset + Window() {
          assert dl in dls && old(Near(want.pos));
          dl.SetRange(want);
          return true, i;
        }
      }
      return false, 0;
    }

    /** Adds answers to the record without changing who is accounted for. */
    method Tell(ghost more: seq<Answer>, rest: seq<Waiter>)
      requires Valid()
      requires Tallied(rest, more, multiset(waiters))
      modifies this`waiters, this`answers
      ensures Valid()
      ensures waiters == rest && answers == old(answers) + more
    {
      StillTallied(waiters, answers, queued, rest, more);
      answers := answers + more;
      waiters := rest;
    }

    method IsReady(w: Waiter) returns (present: bool)
      requires item.Valid()
      ensures present == Ready(item.ranges.rs, srcSize, w)
    {
      var r := w.r.Clip(srcSize);
      RangeQueries.PresentExact(item.ranges.rs, r);
      present := item.HasRange(r);
    }

    /** The in-place filter: who is served, and who is left at the front of the buffer. */
    method FilterWaiters(ws: seq<Waiter>) returns (left: seq<Waiter>, ghost sent: seq<Answer>)
      requires item.Valid()
      ensures left == Unready(item.ranges.rs, srcSize, ws)
      ensures sent == Served(item.ranges.rs, srcSize, ws)
    {
      var buf, k := ws, 0;
      ghost var rs := item.ranges.rs;
      sent := [];
      for i := 0 to |ws|
        invariant k <= i && |buf| == |ws|
        invariant forall j :: i <= j < |ws| ==> buf[j] == ws[j]
        invariant buf[..k] == Unready(rs, srcSize, ws[..i])
        invariant sent == Served(rs, srcSize, ws[..i])
      {
        var w := buf[i];
        FilterStep(rs, srcSize, ws, i);
        var present := IsReady(w);
        if present {
          sent := sent + [Answer(w, None)];
        } else {
          Overwritten(buf, k, w);
          buf := buf[k := w];
          k := k + 1;
        }
      }
      assert ws[..|ws|] == ws;
      left := buf[..k];
    }

    /** Tells every waiter whose clipped range is cached; the others stay queued in order. */
    method DispatchWaiters()
      requires Valid()
      modifies this`waiters, this`answers
      ensures Valid()
      ensures waiters == Unready(item.ranges.rs, srcSize, old(waiters))
      ensures answers == old(answers) + Served(item.ranges.rs, srcSize, old(waiters))
    {
      var left;
      ghost var sent;
      left, sent := FilterWaiters(waiters);
      FilterSplits(item.ranges.rs, srcSize, waiters);
      Tell(sent, left);
    }

    method CloseWaiters(err: Option<Error>)
      requires Valid()
      modifies this`waiters, this`answers
      ensures Valid()
      ensures waiters == []
      ensures answers == old(answers) + AllTold(old(waiters), err)
    {
      AllToldTells(waiters, err);
      Tell(AllTold(waiters, err), []);
    }

    /** Queues a request behind a downloader that will serve it. */
    method Download(w: Waiter, opens: bool, buffered: bool) returns (err: Option<Error>)
      requires Valid() && w.r.pos >= 0
      modifies this, dls
      ensures Valid()
      ensures answers == old(answers)
      ensures err == None ==> waiters == old(waiters) + [w] && queued == old(queued) + multiset{w}
      ensures err.Some? ==> waiters == old(waiters) && queued == old(queued)
      ensures log == old(log) + Failure(err)
      ensures forall b :: Missing(w.r, b) ==> err == if !opens && !old(Near(b)) then Some(Failed) else None
      ensures (forall b :: !Missing(w.r, b)) ==> err == None
      ensures err == None ==> Provided(w.r)
    {
      err := EnsureDownloader(w.r, opens, buffered);
      if err != None {
        return;
      }
      Enqueue(w);
    }

    method Enqueue(w: Waiter)
      requires Valid()
      modifies this`waiters, this`queued
      ensures Valid()
      ensures waiters == old(waiters) + [w] && queued == old(queued) + multiset{w}
    {
      QueuedOnce(waiters, answers, queued, w);
      waiters := waiters + [w];
      queued := queued + multiset{w};
    }

    /** Keeps a downloader going for everyone who still waits; failures are only counted. */
    method EnsureForWaiters(opens: nat -> bool)
      requires Valid() && forall w :: w in waiters ==> w.r.pos >= 0
      modifies this`dls, this`errorCount, this`lastErr, this`log, dls
      ensures Valid()
      ensures forall dl :: dl in old(dls) ==> unchanged(dl`start, dl`offset, dl`closed) && dl.maxOffset >= old(dl.maxOffset)
      ensures forall dl :: dl in old(dls) && !dl.closed ==> dl in dls
      ensures fresh(set dl | dl in dls && dl !in old(dls))
      ensures AllOpen(opens) ==> log == old(log) && ProvidedAll(waiters)
      ensures Failing(old(log), log)
    {
      var ws := waiters;
      for i := 0 to |ws|
        invariant Valid() && waiters == ws
        invariant fresh(set dl | dl in dls && dl !in old(dls))
        invariant forall dl :: dl in old(dls) ==> unchanged(dl`start, dl`offset, dl`closed) && dl.maxOffset >= old(dl.maxOffset)
        invariant forall dl :: dl in old(dls) && !dl.closed ==> dl in dls
        invariant AllOpen(opens) ==> log == old(log) && ProvidedUpTo(ws, i)
        invariant Failing(old(log), log)
      {
        assert ws[i] in waiters;
        EnsureNext(ws, i, opens(i));
      }
    }

    /** One waiter more; those before it stay provided for. */
    method EnsureNext(ws: seq<Waiter>, i: nat, opens: bool)
      requires Valid() && i < |ws| && ws[i].r.pos >= 0
      modifies this`dls, this`errorCount, this`lastErr, this`log, dls
      ensures Valid()
      ensures forall dl :: dl in old(dls) ==> unchanged(dl`start, dl`offset, dl`closed) && dl.maxOffset >= old(dl.maxOffset)
      ensures forall dl :: dl in old(dls) && !dl.closed ==> dl in dls
      ensures fresh(set dl | dl in dls && dl !in old(dls))
      ensures opens ==> log == old(log) && (old(ProvidedUpTo(ws, i)) ==> ProvidedUpTo(ws, i + 1))
      ensures log == old(log) || log == old(log) + [(0, Some(Failed))]
    {
      var ignored := EnsureForOne(ws[i], opens);
    }

    method EnsureForOne(w: Waiter, opens: bool) returns (err: Option<Error>)
      requires Valid() && w.r.pos >= 0
      modifies this`dls, this`errorCount, this`lastErr, this`log, dls
      ensures Valid()
      ensures forall dl :: dl in old(dls) ==> unchanged(dl`start, dl`offset, dl`closed) && dl.maxOffset >= old(dl.maxOffset)
      ensures forall dl :: dl in old(dls) && !dl.closed ==> dl in dls
      ensures fresh(set dl | dl in dls && dl !in old(dls))
      ensures (err == None ==> Provided(w.r)) && (opens ==> err == None)
      ensures log == if err == None then old(log) else old(log) + [(0, Some(Failed))]
    {
      var buffered := *;
      err := EnsureDownloader(w.r, opens, buffered);
    }

    /**
     Dispatches, keeps downloaders going for whoever still waits, and gives up on
     the waiters when the disk is full or too many downloads in a row have failed.
     */
    method KickWaiters(opens: nat -> bool) returns (err: Option<Error>)
      requires Valid() && forall w :: w in waiters ==> w.r.pos >= 0
      modifies this, dls
      ensures Valid()
      ensures forall dl :: dl in old(dls) ==> unchanged(dl`start, dl`offset)
      ensures queued == old(queued)
      ensures forall dl :: dl in dls ==> dl in old(dls) || fresh(dl)
      ensures err.Some? <==> Unready(item.ranges.rs, srcSize, old(waiters)) != [] && Hopeless(log)
      ensures err.Some? ==> err == LastError(log)
      ensures err == None ==>
        && waiters == Unready(item.ranges.rs, srcSize, old(waiters))
        && answers == old(answers) + Served(item.ranges.rs, srcSize, old(waiters))
      ensures err.Some? ==>
        && waiters == []
        && answers == old(answers) + Served(item.ranges.rs, srcSize, old(waiters))
                      + AllTold(Unready(item.ranges.rs, srcSize, old(waiters)), err)
      ensures AllOpen(opens) ==> log == old(log) && (err == None ==> ProvidedAll(waiters))
      ensures Failing(old(log), log)
    {
      DispatchWaiters();
      UnreadyMembers(item.ranges.rs, srcSize, old(waiters));
      err := KickRemaining(opens);
    }

    method KickRemaining(opens: nat -> bool) returns (err: Option<Error>)
      requires Valid() && forall w :: w in waiters ==> w.r.pos >= 0
      modifies this, dls
      ensures Valid() && queued == old(queued)
      ensures forall dl :: dl in old(dls) ==> unchanged(dl`start, dl`offset)
      ensures forall dl :: dl in dls ==> dl in old(dls) || fresh(dl)
      ensures err.Some? <==> old(waiters) != [] && Hopeless(log)
      ensures err.Some? ==> err == LastError(log)
      ensures err == None ==> waiters == old(waiters) && answers == old(answers)
      ensures err.Some? ==> waiters == [] && answers == old(answers) + AllTold(old(waiters), err)
      ensures AllOpen(opens) ==> log == old(log) && (err == None ==> ProvidedAll(waiters))
      ensures Failing(old(log), log)
    {
      if |waiters| == 0 {
        return None;
      }
      err := KeepGoing(opens);
      if err == None {
        return None;
      }
      CloseWaiters(err);
    }

    /** Downloaders for everyone, and the verdict. */
    method KeepGoing(opens: nat -> bool) returns (err: Option<Error>)
      requires Valid() && forall w :: w in waiters ==> w.r.pos >= 0
      modifies this`dls, this`errorCount, this`lastErr, this`log, dls
      ensures Valid()
      ensures forall dl :: dl in old(dls) ==> unchanged(dl`start, dl`offset)
      ensures forall dl :: dl in dls ==> dl in old(dls) || fresh(dl)
      ensures err == if Hopeless(log) then LastError(log) else None
      ensures err.Some? <==> Hopeless(log)
      ensures AllOpen(opens) ==> log == old(log) && ProvidedAll(waiters)
      ensures Failing(old(log), log)
    {
      EnsureForWaiters(opens);
      err := GiveUp();
    }

    /** Whether whoever waits is to be failed, and with what: a full disk, or too many errors in a row. */
    method GiveUp() returns (err: Option<Error>)
      requires Valid()
      ensures err == if Hopeless(log) then LastError(log) else None
      ensures err.Some? <==> Hopeless(log)
    {
      ghost var known := LastErrorLogged(log);
      if lastErr == Some(NoSpace) {
        return lastErr;
      }
      if errorCount > MAX_ERROR_COUNT {
        return lastErr;
      }
      return None;
    }

    /**
     Stops everything, when nobody calls meanwhile.  Whoever still waits is told `inErr`,
     a nil one included.
     */
    method Close(inErr: Option<Error>)
      requires Valid()
      modifies this, dls
      ensures Valid() && queued == old(queued)
      ensures dls == [] && waiters == [] && Told(answers) == queued
      ensures forall dl :: dl in old(dls) ==> dl.closed
      ensures answers == old(answers) + Served(item.ranges.rs, srcSize, old(waiters))
                         + AllTold(Unready(item.ranges.rs, srcSize, old(waiters)), inErr)
    {
      StopAll();
      TellEveryone(inErr);
    }

    /** The last section of Close: whatever happened while the lock was free, everyone queued is told once. */
    method TellEveryone(inErr: Option<Error>)
      requires Valid()
      modifies this`dls, this`waiters, this`answers
      ensures Valid()
      ensures dls == [] && waiters == [] && Told(answers) == queued
      ensures answers == old(answers) + Served(item.ranges.rs, srcSize, old(waiters))
                         + AllTold(Unready(item.ranges.rs, srcSize, old(waiters)), inErr)
    {
      dls := [];
      DispatchWaiters();
      CloseWaiters(inErr);
    }

    method StopAll()
      requires Valid()
      modifies dls
      ensures Valid()
      ensures forall dl :: dl in dls ==> dl.closed
    {
      for i := 0 to |dls|
        invariant Valid()
        invariant forall j :: 0 <= j < i ==> dls[j].closed
      {
        dls[i].stop := true;
        dls[i].closed := true;
      }
    }

    /** Waits until the downloader is asked to go on, or stops it when nobody does. */
    method Idle(dl: Downloader, wakes: seq<Wake>)
      requires Valid() && dl in dls
      modifies dl
      ensures Valid()
      ensures unchanged(dl`start, dl`offset, dl`closed, dl`skipped, dl`hasBuffer)
      ensures dl.maxOffset == Awaited(old(dl.offset), old(dl.maxOffset), wakes).0
      ensures dl.stop == (old(dl.stop) || Awaited(old(dl.offset), old(dl.maxOffset), wakes).1)
    {
      var i := 0;
      while dl.offset >= dl.maxOffset
        invariant 0 <= i <= |wakes| && Valid()
        invariant unchanged(dl`start, dl`offset, dl`closed, dl`skipped, dl`hasBuffer, dl`stop)
        invariant Awaited(dl.offset, dl.maxOffset, wakes[i..]) == Awaited(old(dl.offset), old(dl.maxOffset), wakes)
        decreases |wakes| - i
      {
        if i == |wakes| || wakes[i] == Timeout {
          dl.stop := true;
          return;
        }
        if wakes[i] == Quit {
          return;
        }
        assert wakes[i..][1..] == wakes[i + 1..];
        dl.maxOffset := Max(dl.maxOffset, wakes[i].maxOffset);
        i := i + 1;
      }
    }

    /**
     A downloader hands over the next bytes of its stream.  They are filed at its
     offset, the offset moves by what was accepted, and the waiters are looked at.
     */
    method Write(dl: Downloader, p: seq<byte>, wakes: seq<Wake>, fates: nat -> Item.Fate, opens: nat -> bool)
        returns (n: nat, err: Option<Error>)
      requires Valid() && dl in dls && forall w :: w in waiters ==> w.r.pos >= 0
      modifies this, dls, item.ranges, item.fd
      ensures Valid() && queued == old(queued)
      ensures n <= |p| && (err == None ==> n == |p|)
      ensures item.fd != null && old(dl.offset) >= 0 && Item.Smooth(fates, |p|) ==> n == |p|
      ensures dl.offset == old(dl.offset) + n && dl.start == old(dl.start)
      ensures Item.WroteNoOverwrite(old(item.ranges.rs), old(item.Data()), p, old(dl.offset), n,
                                    item.ranges.rs, item.Data())
      ensures n == 0 ==> waiters == old(waiters) && answers == old(answers)
      ensures n > 0 ==> old(answers) + Served(item.ranges.rs, srcSize, old(waiters)) <= answers
      ensures n > 0 ==> waiters == Unready(item.ranges.rs, srcSize, old(waiters)) || (waiters == [] && err.Some?)
      ensures n > 0 && AllOpen(opens) && waiters != [] ==> ProvidedAll(waiters)
    {
      n, err := File(dl, p, wakes, fates);
      if n > 0 {
        ghost var rs, data := item.ranges.rs, item.Data();
        var waitErr := KickWaiters(opens);
        assert item.ranges.rs == rs && item.Data() == data;
        if err == None {
          err := waitErr;
        }
      }
    }

    /** The part of Write under the downloader's lock. */
    method File(dl: Downloader, p: seq<byte>, wakes: seq<Wake>, fates: nat -> Item.Fate) returns (n: nat, err: Option<Error>)
      requires Valid() && dl in dls
      modifies dl, item.ranges, item.fd
      ensures Valid()
      ensures n <= |p| && (err == None ==> n == |p|)
      ensures item.fd != null && old(dl.offset) >= 0 && Item.Smooth(fates, |p|) ==>
        n == |p| && err == if dl.stop && !dl.hasBuffer then Some(Abandoned) else None
      ensures dl.offset == old(dl.offset) + n && dl.start == old(dl.start)
      ensures dl.stop == (old(dl.stop) || Awaited(old(dl.offset), old(dl.maxOffset), wakes).1 || dl.skipped > MAX_SKIP_BYTES)
      ensures dl.stop && !dl.hasBuffer ==> err == Some(Abandoned)
      ensures Item.WroteNoOverwrite(old(item.ranges.rs), old(item.Data()), p, old(dl.offset), n,
                                    item.ranges.rs, item.Data())
    {
      Idle(dl, wakes);
      var skipped;
      n, skipped, err := Store(dl, p, fates);
      if dl.skipped > MAX_SKIP_BYTES {
        dl.stop := true;
      }
      if dl.stop && !dl.hasBuffer {
        err := Some(Abandoned);
      }
    }

    method Store(dl: Downloader, p: seq<byte>, fates: nat -> Item.Fate) returns (n: nat, skipped: nat, err: Option<Error>)
      requires Valid() && dl in dls
      modifies dl`offset, dl`skipped, item.ranges, item.fd
      ensures Valid()
      ensures n <= |p| && (err == None ==> n == |p|)
      ensures Item.Explained(item.fd != null, old(dl.offset), fates, |p|, err)
      ensures dl.offset == old(dl.offset) + n
      ensures dl.skipped == if skipped == n then old(dl.skipped) + n else 0
      ensures |Bytes(item.ranges.rs)| == |Bytes(old(item.ranges.rs))| + n - skipped
      ensures Item.WroteNoOverwrite(old(item.ranges.rs), old(item.Data()), p, old(dl.offset), n,
                                    item.ranges.rs, item.Data())
    {
      ghost var rs, data := item.ranges.rs, item.Data();
      n, skipped, err := item.WriteAtNoOverwrite(p, dl.offset, fates);
      dl.skipped := if skipped == n then dl.skipped + skipped else 0;
      ghost var off := dl.offset;
      dl.offset := dl.offset + n;
      forall d | d in dls ensures d.start <= d.offset && CoversAll(item.ranges.rs, d.start, d.offset) {
        CoverGrows(rs, data, p, off, n, item.ranges.rs, item.Data(), d.start, if d == dl then off else d.offset);
      }
    }
  }

  /** A write keeps what was covered and covers what it was given. */
  lemma CoverGrows(rs: seq<Range>, data: seq<byte>, b: seq<byte>, off: int, n: nat,
                   rs': seq<Range>, data': seq<byte>, lo: int, hi: int)
    requires n <= |b| && Item.WroteNoOverwrite(rs, data, b, off, n, rs', data')
    requires CoversAll(rs, lo, hi)
    ensures CoversAll(rs', lo, hi)
    ensures hi == off ==> CoversAll(rs', lo, off + n)
  {
  }

  /** What wakes a downloader that has reached its target. */
  datatype Wake = Quit | Kick(maxOffset: int) | Timeout

  /** The target after waiting, and whether the downloader stops because nobody has asked for more. */
  function Awaited(offset: int, maxOffset: int, wakes: seq<Wake>): (int, bool)
    decreases |wakes|
  {
    if offset < maxOffset then (maxOffset, false)
    else if wakes == [] || wakes[0] == Timeout then (maxOffset, true)
    else if wakes[0] == Quit then (maxOffset, false)
    else Awaited(offset, Max(maxOffset, wakes[0].maxOffset), wakes[1..])
  }

  lemma {:induction false} UnreadyMembers(rs: seq<Range>, size: int, ws: seq<Waiter>)
    ensures forall w :: w in Unready(rs, size, ws) ==> w in ws
    decreases |ws|
  {
    if ws != [] {
      UnreadyMembers(rs, size, ws[..|ws| - 1]);
    }
  }
}
