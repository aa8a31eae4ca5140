/**
 What the item does for its callers: an open is let in and keeps or drops the cache as
 it should, a read gets its bytes, a release and a reset have their effect.  Each theorem
 takes any state that some safe schedule reaches and shows the steps that lead on from it.
 */
module CacheProtocolService {
  import opened Common
  import opened CacheProtocol
  import opened CacheProtocolProofs
  import opened Ranges

  /** Some schedule leads here from a cold item. */
  ghost predicate Reached(w: World, s: State) {
    exists s0, acts :: Init(w, s0) && Run(SAFE, w, s0, acts) == Some(s)
  }

  lemma ReachedInv(w: World, s: State)
    requires Reached(w, s)
    ensures Inv(w, s)
  {
    var s0, acts :| Init(w, s0) && Run(SAFE, w, s0, acts) == Some(s);
    InitInv(w, s0);
    RunKeeps(w, s0, acts);
  }

  /** Some schedule leads from `s` to `s'`; if `own`, one in which only readers act. */
  ghost predicate Leads(w: World, s: State, s': State, own: bool) {
    exists acts :: Run(SAFE, w, s, acts) == Some(s') && (own ==> forall i :: 0 <= i < |acts| ==> OfReader(acts[i]))
  }

  lemma {:induction false} RunConcat(w: World, s: State, a: seq<Action>, b: seq<Action>)
    requires Run(SAFE, w, s, a).Some?
    ensures Run(SAFE, w, s, a + b) == Run(SAFE, w, Run(SAFE, w, s, a).value, b)
    decreases |a|
  {
    if a == [] {
      assert a + b == b;
    } else {
      assert (a + b)[1..] == a[1..] + b;
      RunConcat(w, Step(SAFE, w, s, a[0]).value, a[1..], b);
    }
  }

  lemma Then(w: World, s: State, m: State, s': State, own: bool)
    requires Leads(w, s, m, own) && Leads(w, m, s', own)
    ensures Leads(w, s, s', own)
  {
    var a :| Run(SAFE, w, s, a) == Some(m) && (own ==> forall i :: 0 <= i < |a| ==> OfReader(a[i]));
    var b :| Run(SAFE, w, m, b) == Some(s') && (own ==> forall i :: 0 <= i < |b| ==> OfReader(b[i]));
    RunConcat(w, s, a, b);
    assert Run(SAFE, w, s, a + b) == Some(s');
  }

  lemma One(w: World, s: State, a: Action, s': State, own: bool)
    requires Step(SAFE, w, s, a) == Some(s') && (own ==> OfReader(a))
    ensures Leads(w, s, s', own)
  {
    assert Run(SAFE, w, s', []) == Some(s');
    assert [a][1..] == [];
    assert Run(SAFE, w, s, [a]) == Some(s');
  }

  lemma ReachedOn(w: World, s: State, s': State, own: bool)
    requires Reached(w, s) && Leads(w, s, s', own)
    ensures Reached(w, s')
  {
    var s0, a :| Init(w, s0) && Run(SAFE, w, s0, a) == Some(s);
    var b :| Run(SAFE, w, s, b) == Some(s') && (own ==> forall i :: 0 <= i < |b| ==> OfReader(b[i]));
    RunConcat(w, s0, a, b);
    assert Run(SAFE, w, s0, a + b) == Some(s');
  }

  /********************************* Reads ***********************************/

  /** `s` with caller t inside. */
  ghost function Inside(s: State, t: nat, p: Phase): State {
    s.(pending := s.pending + 1, threads := s.threads[t := p])
  }

  /** `s` with caller t moved on. */
  ghost function Now(s: State, t: nat, p: Phase): State {
    s.(threads := s.threads[t := p])
  }

  lemma NowInside(s: State, t: nat, p: Phase, q: Phase)
    ensures Now(Inside(s, t, p), t, q) == Inside(s, t, q)
    ensures Now(Now(s, t, p), t, q) == Now(s, t, q)
  {
    assert s.threads[t := p][t := q] == s.threads[t := q];
  }

  /** A caller may begin to read through handle h. */
  ghost predicate MayRead(s: State, t: nat, h: nat) {
    && h in s.handles && t !in s.threads && !s.beingReset && s.fdOpen
    && forall u :: u in s.threads ==> s.threads[u] != ReleaseBody(h)
  }

  /** Every byte asked for that the object has is cached. */
  ghost predicate Has(s: State, h: nat, off: int, len: nat)
    requires h in s.handles
  {
    forall b :: off <= b < Min(off + len, |s.handles[h].content|) ==> b in s.rs
  }

  /** The open file holds the object as far as it is cached. */
  lemma HoldsContent(w: World, s: State, h: nat)
    requires Reached(w, s) && s.fdOpen && h in s.handles
    ensures s.file.Some? && s.obj == Some(s.handles[h].content) && s.size == |s.handles[h].content| == |s.file.value|
    ensures forall b :: b in s.rs ==> 0 <= b < s.size && s.file.value[b] == s.handles[h].content[b]
  {
    ReachedInv(w, s);
    forall b | b in s.rs
      ensures 0 <= b < s.size && s.file.value[b] == s.handles[h].content[b]
    {
      assert Holds(s, s.obj.value, b);
    }
  }

  lemma GrantedHas(w: World, s: State, t: nat)
    requires Reached(w, s) && t in s.threads && s.threads[t].Granted?
    ensures var Granted(h, off, len) := s.threads[t];
      off >= 0 && h in s.handles && Has(s, h, off, len)
  {
    ReachedInv(w, s);
    assert ThreadOK(s, s.threads[t]);
    assert s.obj == Some(s.handles[s.threads[t].handle].content);
  }

  /** A granted read gets its bytes, all of them up to the end of the object, while the file is open. */
  lemma GrantedReads(w: World, s: State, t: nat) returns (out: Option<Bytes>)
    requires Reached(w, s) && t in s.threads && s.threads[t].Granted? && s.fdOpen
    ensures var Granted(h, off, len) := s.threads[t];
      && h in s.handles && Gets(out, s.handles[h].content, off, len)
      && Step(SAFE, w, s, ReadFile(t)) == Some(Now(s, t, ReadDone(h, off, len, out)))
      && Leads(w, s, Now(s, t, ReadDone(h, off, len, out)), true)
  {
    var Granted(h, off, len) := s.threads[t];
    GrantedHas(w, s, t);
    HoldsContent(w, s, h);
    var s' := Step(SAFE, w, s, ReadFile(t)).value;
    out := s'.threads[t].out;
    One(w, s, ReadFile(t), s', true);
  }

  lemma Enters(w: World, s: State, t: nat, h: nat, off: int, len: nat)
    requires MayRead(s, t, h)
    ensures Leads(w, s, Enter(s, t, ReadBegin(h, off, len)), true)
  {
    One(w, s, EnterRead(t, h, off, len), Enter(s, t, ReadBegin(h, off, len)), true);
  }

  /** A request whose bytes are cached is granted without any help. */
  lemma CachedGranted(w: World, s: State, t: nat)
    requires Reached(w, s) && t in s.threads && s.threads[t].ReadBegin? && s.fdOpen && s.threads[t].off >= 0
    requires s.threads[t].handle in s.handles && Has(s, s.threads[t].handle, s.threads[t].off, s.threads[t].len)
    ensures Leads(w, s, Now(s, t, Granted(s.threads[t].handle, s.threads[t].off, s.threads[t].len)), true)
  {
    var ReadBegin(h, off, len) := s.threads[t];
    HoldsContent(w, s, h);
    var s' := Now(s, t, Granted(h, off, len));
    if s.dls.None? {
      One(w, s, CheckRange(t), s', true);
    } else {
      var s1 := Now(s, t, Ensuring(h, off, len, s.dls.value));
      One(w, s, CheckRange(t), s1, true);
      NowInside(s, t, Ensuring(h, off, len, s.dls.value), Granted(h, off, len));
      One(w, s1, Ensured(t, true), s', true);
      Then(w, s, s1, s', true);
    }
  }

  /** A request whose bytes are cached, by a reader that is open, ends with those bytes. */
  lemma CachedRead(w: World, s: State, t: nat, h: nat, off: int, len: nat) returns (out: Option<Bytes>)
    requires Reached(w, s) && MayRead(s, t, h) && off >= 0 && Has(s, h, off, len)
    ensures Gets(out, s.handles[h].content, off, len)
    ensures Leads(w, s, Inside(s, t, ReadDone(h, off, len, out)), true)
  {
    var s1 := Inside(s, t, ReadBegin(h, off, len));
    Enters(w, s, t, h, off, len);
    ReachedOn(w, s, s1, true);
    CachedGranted(w, s1, t);
    NowInside(s, t, ReadBegin(h, off, len), Granted(h, off, len));
    Then(w, s, s1, Inside(s, t, Granted(h, off, len)), true);
    out := GrantedEnds(w, s, t, h, off, len);
  }

  lemma GrantedEnds(w: World, s: State, t: nat, h: nat, off: int, len: nat) returns (out: Option<Bytes>)
    requires Reached(w, s) && s.fdOpen && h in s.handles && Leads(w, s, Inside(s, t, Granted(h, off, len)), true)
    ensures Gets(out, s.handles[h].content, off, len)
    ensures Leads(w, s, Inside(s, t, ReadDone(h, off, len, out)), true)
  {
    var s2 := Inside(s, t, Granted(h, off, len));
    ReachedOn(w, s, s2, true);
    out := GrantedReads(w, s2, t);
    NowInside(s, t, Granted(h, off, len), ReadDone(h, off, len, out));
    Then(w, s, s2, Inside(s, t, ReadDone(h, off, len, out)), true);
  }

  /** Before the beginning of the object there is nothing, and no error. */
  lemma NegativeRead(w: World, s: State, t: nat, h: nat, off: int, len: nat)
    requires MayRead(s, t, h) && off < 0
    ensures Leads(w, s, Inside(s, t, ReadDone(h, off, len, Some([]))), true)
  {
    var s1 := Inside(s, t, ReadBegin(h, off, len));
    var s' := Inside(s, t, ReadDone(h, off, len, Some([])));
    Enters(w, s, t, h, off, len);
    assert s1.threads[t := ReadDone(h, off, len, Some([]))] == s'.threads;
    One(w, s1, CheckRange(t), s', true);
    Then(w, s, s1, s', true);
  }

  /** Once its read is over a caller leaves the item as it found it. */
  lemma ReadLeaves(w: World, s: State, t: nat, h: nat, off: int, len: nat, out: Option<Bytes>)
    requires t !in s.threads
    ensures Leads(w, Inside(s, t, ReadDone(h, off, len, out)), s, true)
  {
    assert s.threads[t := ReadDone(h, off, len, out)] - {t} == s.threads;
    One(w, Inside(s, t, ReadDone(h, off, len, out)), LeaveRead(t), s, true);
  }

  /** A waiter is answered as soon as the bytes it waits for are cached, and not before. */
  lemma WaiterAnswered(w: World, s: State, t: nat)
    requires Reached(w, s) && t in s.threads && s.threads[t].Waiting?
    ensures var Waiting(h, off, len, g) := s.threads[t];
      && h in s.handles
      && Step(SAFE, w, s, Dispatch(t)) ==
           if Has(s, h, off, len) then Some(s.(threads := s.threads[t := Granted(h, off, len)])) else None
  {
    ReachedInv(w, s);
    assert ThreadOK(s, s.threads[t]);
    assert s.obj == Some(s.handles[s.threads[t].handle].content);
  }

  /** A request that lacks a byte is queued with a scheduler. */
  lemma Requests(w: World, s: State, t: nat) returns (s': State, g: nat)
    requires Reached(w, s) && t in s.threads && s.threads[t].ReadBegin? && s.fdOpen && s.threads[t].off >= 0
    requires s.threads[t].handle in s.handles && !Has(s, s.threads[t].handle, s.threads[t].off, s.threads[t].len)
    ensures var ReadBegin(h, off, len) := s.threads[t];
      s' == Now(s, t, Waiting(h, off, len, g)).(dls := Some(g), groups := s'.groups) && Leads(w, s, s', true)
  {
    var ReadBegin(h, off, len) := s.threads[t];
    HoldsContent(w, s, h);
    var s0 := CreateDownloaders(s);
    g := s0.dls.value;
    var s1 := Now(s0, t, Requesting(h, off, len, g));
    One(w, s, CheckRange(t), s1, true);
    NowInside(s0, t, Requesting(h, off, len, g), Waiting(h, off, len, g));
    s' := Now(s0, t, Waiting(h, off, len, g));
    One(w, s1, Queue(t, true), s', true);
    Then(w, s, s1, s', true);
  }

  lemma Live(w: World, s: State, d: nat)
    requires Reached(w, s) && d in s.live
    ensures 0 <= s.live[d].offset <= |s.live[d].src| && (s.fdOpen ==> s.file.Some?)
  {
    ReachedInv(w, s);
  }

  /** A download caches exactly what it writes. */
  lemma DownloadWrites(w: World, s: State, d: nat, n: nat) returns (s': State)
    requires Reached(w, s) && d in s.live && s.fdOpen && s.live[d].offset + n <= |s.live[d].src|
    ensures Step(SAFE, w, s, WriteDownload(d, n)) == Some(s')
    ensures s' == s.(file := s'.file, rs := s'.rs, live := s.live[d := s.live[d].(offset := s.live[d].offset + n)])
    ensures forall b :: b in s'.rs <==> b in s.rs || s.live[d].offset <= b < s.live[d].offset + n
  {
    Live(w, s, d);
    s' := Step(SAFE, w, s, WriteDownload(d, n)).value;
  }

  /** While somebody waits a download may start at any byte of the object. */
  lemma DownloadStarts(w: World, s: State, t: nat, d: nat, pos: int) returns (s': State)
    requires Reached(w, s) && t in s.threads && s.threads[t].Waiting? && s.fdOpen && d !in s.live
    requires s.threads[t].handle in s.handles && 0 <= pos < |s.handles[s.threads[t].handle].content|
    ensures s' == s.(live := s.live[d := Download(s.threads[t].group, s.handles[s.threads[t].handle].content, pos, pos)])
    ensures Leads(w, s, s', false)
  {
    HoldsContent(w, s, s.threads[t].handle);
    s' := s.(live := s.live[d := Download(s.threads[t].group, s.obj.value, pos, pos)]);
    One(w, s, StartDownload(d, s.threads[t].group, pos), s', false);
  }

  /** A download that brings [pos, pos + n) and ends. */
  lemma DownloadRuns(w: World, s: State, t: nat, d: nat, pos: int, n: nat) returns (s': State)
    requires Reached(w, s) && t in s.threads && s.threads[t].Waiting? && s.fdOpen && d !in s.live
    requires s.threads[t].handle in s.handles
    requires 0 <= pos < pos + n <= |s.handles[s.threads[t].handle].content|
    ensures s' == s.(file := s'.file, rs := s'.rs) && Leads(w, s, s', false)
    ensures forall b :: b in s'.rs <==> b in s.rs || pos <= b < pos + n
  {
    var s1 := DownloadStarts(w, s, t, d, pos);
    ReachedOn(w, s, s1, false);
    var s2 := DownloadWrites(w, s1, d, n);
    One(w, s1, WriteDownload(d, n), s2, false);
    Then(w, s, s1, s2, false);
    assert s2.live - {d} == s.live;
    s' := s.(file := s2.file, rs := s2.rs);
    One(w, s2, StopDownload(d), s', false);
    Then(w, s, s2, s', false);
  }

  /** While somebody waits for a byte that is missing, a download can bring what is waited for. */
  lemma Fetches(w: World, s: State, t: nat, d: nat) returns (s': State)
    requires Reached(w, s) && t in s.threads && s.threads[t].Waiting? && s.fdOpen && d !in s.live
    requires s.threads[t].handle in s.handles && !Has(s, s.threads[t].handle, s.threads[t].off, s.threads[t].len)
    requires s.threads[t].off >= 0
    ensures s' == s.(file := s'.file, rs := s'.rs) && s.rs <= s'.rs && Leads(w, s, s', false)
    ensures Has(s', s.threads[t].handle, s.threads[t].off, s.threads[t].len)
  {
    var Waiting(h, off, len, g) := s.threads[t];
    s' := DownloadRuns(w, s, t, d, off, Min(off + len, |s.handles[h].content|) - off);
    assert forall b :: b in s.rs ==> b in s'.rs;
  }

  /** A request that lacks a byte can be served by one download, and ends with the origin's bytes. */
  lemma MissingRead(w: World, s: State, t: nat, h: nat, off: int, len: nat, d: nat) returns (s': State, out: Option<Bytes>)
    requires Reached(w, s) && MayRead(s, t, h) && off >= 0 && !Has(s, h, off, len) && d !in s.live
    ensures Gets(out, s.handles[h].content, off, len) && Leads(w, s, s', false)
    ensures s'.threads == s.threads[t := ReadDone(h, off, len, out)] && s'.handles == s.handles
    ensures s.rs <= s'.rs && Has(s', h, off, len)
  {
    var s2, g := Queues(w, s, t, h, off, len);
    ReachedOn(w, s, s2, false);
    s', out := QueuedEnds(w, s2, t, d);
    Then(w, s, s2, s', false);
    NowInside(s, t, Waiting(h, off, len, g), ReadDone(h, off, len, out));
  }

  /** Whoever waits for a missing byte can be served by one download. */
  lemma QueuedEnds(w: World, s: State, t: nat, d: nat) returns (s': State, out: Option<Bytes>)
    requires Reached(w, s) && t in s.threads && s.threads[t].Waiting? && s.fdOpen && d !in s.live
    requires s.threads[t].handle in s.handles && !Has(s, s.threads[t].handle, s.threads[t].off, s.threads[t].len)
    requires s.threads[t].off >= 0
    ensures var Waiting(h, off, len, g) := s.threads[t];
      && Gets(out, s.handles[h].content, off, len) && Leads(w, s, s', false)
      && s' == Now(s, t, ReadDone(h, off, len, out)).(file := s'.file, rs := s'.rs)
      && s.rs <= s'.rs && Has(s', h, off, len)
  {
    var s1 := Fetches(w, s, t, d);
    ReachedOn(w, s, s1, false);
    s', out := WaiterEnds(w, s1, t);
    Then(w, s, s1, s', false);
  }

  /** A caller comes in and is queued. */
  lemma Queues(w: World, s: State, t: nat, h: nat, off: int, len: nat) returns (s': State, g: nat)
    requires Reached(w, s) && MayRead(s, t, h) && off >= 0 && !Has(s, h, off, len)
    ensures s' == Inside(s, t, Waiting(h, off, len, g)).(dls := Some(g), groups := s'.groups)
    ensures Leads(w, s, s', false)
  {
    var s1 := Inside(s, t, ReadBegin(h, off, len));
    Enters(w, s, t, h, off, len);
    ReachedOn(w, s, s1, true);
    s', g := Requests(w, s1, t);
    NowInside(s, t, ReadBegin(h, off, len), Waiting(h, off, len, g));
    Then(w, s, s1, s', true);
    Anyhow(w, s, s');
  }

  lemma Anyhow(w: World, s: State, s': State)
    requires Leads(w, s, s', true)
    ensures Leads(w, s, s', false)
  {
  }

  lemma WaiterEnds(w: World, s: State, t: nat) returns (s': State, out: Option<Bytes>)
    requires Reached(w, s) && t in s.threads && s.threads[t].Waiting? && s.fdOpen
    requires s.threads[t].handle in s.handles && Has(s, s.threads[t].handle, s.threads[t].off, s.threads[t].len)
    ensures var Waiting(h, off, len, g) := s.threads[t];
      Gets(out, s.handles[h].content, off, len) && s' == Now(s, t, ReadDone(h, off, len, out)) && Leads(w, s, s', false)
  {
    var Waiting(h, off, len, g) := s.threads[t];
    WaiterAnswered(w, s, t);
    var s1 := Now(s, t, Granted(h, off, len));
    One(w, s, Dispatch(t), s1, false);
    ReachedOn(w, s, s1, false);
    out := GrantedReads(w, s1, t);
    NowInside(s, t, Granted(h, off, len), ReadDone(h, off, len, out));
    s' := Now(s, t, ReadDone(h, off, len, out));
    Anyhow(w, s1, s');
    Then(w, s, s1, s', false);
  }

  /** A read fails exactly where the source reports an error, and its caller is told so. */
  lemma FailuresReported(w: World, s: State, t: nat)
    requires t in s.threads && s.threads[t].IsRead()
    ensures var p := s.threads[t]; var failed := Some(Now(s, t, ReadDone(p.handle, p.off, p.len, None)));
      && (p.ReadBegin? && !s.fdOpen ==> Step(SAFE, w, s, CheckRange(t)) == failed)
      && (p.Ensuring? ==> Step(SAFE, w, s, Ensured(t, false)) == failed)
      && (p.Requesting? ==> Step(SAFE, w, s, Queue(t, false)) == failed)
      && (p.Waiting? ==> Step(SAFE, w, s, FailWaiter(t)) == failed)
      && (p.Granted? && !s.fdOpen ==> Step(SAFE, w, s, ReadFile(t)) == failed)
  {
  }

  /********************************* Opens ***********************************/

  /** A caller may come in to open `obj`, and `h` is a new handle. */
  ghost predicate MayOpen(w: World, s: State, t: nat, h: nat, obj: Object) {
    t !in s.threads && !s.beingReset && Known(w, obj) && h !in s.handles
  }

  /** Handle h is open on `obj` and nobody else has been touched. */
  ghost predicate HasOpened(s: State, s': State, h: nat, obj: Object) {
    && s'.handles == s.handles[h := obj] && s'.opens == s.opens + 1
    && s'.threads == s.threads && s'.pending == s.pending
    && s'.fdOpen && s'.file.Some? && |s'.file.value| == s'.size == |obj.content|
    && s'.obj == Some(obj.content) && s'.fp == obj.validator
  }

  lemma EntersOpen(w: World, s: State, t: nat, obj: Object)
    requires t !in s.threads && !s.beingReset && Known(w, obj)
    ensures Leads(w, s, Inside(s, t, OpenBody(obj)), false)
  {
    One(w, s, EnterOpen(t, obj), Inside(s, t, OpenBody(obj)), false);
  }

  lemma Left(s: State, t: nat, p: Phase)
    requires t !in s.threads
    ensures s.threads[t := p] - {t} == s.threads
  {
  }

  /** Ranges that fit the object survive the sizing of the file. */
  ghost predicate Fits(s: State, obj: Object) {
    (s.file.None? ==> s.rs == {}) && forall b :: b in s.rs ==> 0 <= b < |obj.content|
  }

  lemma CommitShape(s: State, t: nat, p: Phase, h: nat, obj: Object) returns (s': State)
    requires t !in s.threads && Fits(s, obj)
    ensures s' == CommitOpen(Inside(s, t, p), t, obj, Opened(h))
    ensures HasOpened(s, s', h, obj) && s'.rs == s.rs
  {
    Left(s, t, p);
    assert Below(s.rs, |obj.content|) == s.rs;
    s' := CommitOpen(Inside(s, t, p), t, obj, Opened(h));
  }

  /** An open that is decided in one step, its item emptied first if it must be. */
  lemma OpensAtOnce(w: World, s: State, t: nat, h: nat, obj: Object, s0: State) returns (s': State)
    requires MayOpen(w, s, t, h, obj) && Fits(s0, obj)
    requires s0 == (var u := s.(grace := false); if MustReset(s, obj.validator) then Cleared(u) else u)
    requires Step(SAFE, w, Inside(s, t, OpenBody(obj)), DecideOpen(t, Opened(h))) ==
             Some(CommitOpen(Inside(s0, t, OpenBody(obj)), t, obj, Opened(h)))
    ensures Leads(w, s, s', false) && HasOpened(s, s', h, obj) && s'.rs == s0.rs
  {
    EntersOpen(w, s, t, obj);
    s' := CommitShape(s0, t, OpenBody(obj), h, obj);
    One(w, Inside(s, t, OpenBody(obj)), DecideOpen(t, Opened(h)), s', false);
    Then(w, s, Inside(s, t, OpenBody(obj)), s', false);
  }

  lemma Decides(w: World, s: State, t: nat, h: nat, obj: Object) returns (s0: State)
    requires MayOpen(w, s, t, h, obj) && s.closing.None? && !SomeResetting(s)
    requires s.opens > 0 ==> s.fp == obj.validator && (obj.validator.None? ==> s.obj == Some(obj.content))
    requires s.opens == 0 ==> s.live == map[] || (obj.validator.Some? && s.fp == obj.validator)
    requires MustReset(s, obj.validator) ==> s.dls.None?
    ensures s0 == (var u := s.(grace := false); if MustReset(s, obj.validator) then Cleared(u) else u)
    ensures Step(SAFE, w, Inside(s, t, OpenBody(obj)), DecideOpen(t, Opened(h))) ==
            Some(CommitOpen(Inside(s0, t, OpenBody(obj)), t, obj, Opened(h)))
  {
    assert !SomeResetting(Inside(s, t, OpenBody(obj)));
    s0 := s.(grace := false);
    if MustReset(s, obj.validator) {
      s0 := Cleared(s0);
      DecidesToReset(w, s, t, h, obj);
    } else {
      DecidesToKeep(w, s, t, h, obj);
    }
  }

  lemma DecidesToReset(w: World, s: State, t: nat, h: nat, obj: Object)
    requires MayOpen(w, s, t, h, obj) && s.closing.None? && !SomeResetting(Inside(s, t, OpenBody(obj)))
    requires MustReset(s, obj.validator) && s.dls.None? && s.live == map[]
    ensures Step(SAFE, w, Inside(s, t, OpenBody(obj)), DecideOpen(t, Opened(h))) ==
            Some(CommitOpen(Inside(Cleared(s.(grace := false)), t, OpenBody(obj)), t, obj, Opened(h)))
  {
  }

  lemma DecidesToKeep(w: World, s: State, t: nat, h: nat, obj: Object)
    requires MayOpen(w, s, t, h, obj) && s.closing.None? && !SomeResetting(Inside(s, t, OpenBody(obj)))
    requires !MustReset(s, obj.validator)
    requires s.opens > 0 ==> s.fp == obj.validator && (obj.validator.None? ==> s.obj == Some(obj.content))
    requires s.opens == 0 ==> s.live == map[] || (obj.validator.Some? && s.fp == obj.validator)
    ensures Step(SAFE, w, Inside(s, t, OpenBody(obj)), DecideOpen(t, Opened(h))) ==
            Some(CommitOpen(Inside(s.(grace := false), t, OpenBody(obj)), t, obj, Opened(h)))
  {
  }

  lemma SameVersion(w: World, s: State, obj: Object)
    requires Reached(w, s) && Known(w, obj) && s.opens > 0 && s.fp == obj.validator
    requires obj.validator.None? ==> s.obj == Some(obj.content)
    ensures s.closing.None? && !SomeResetting(s) && Fits(s, obj)
  {
    ReachedInv(w, s);
    assert s.handles != map[];
    var h :| h in s.handles;
    forall t | t in s.threads
      ensures !s.threads[t].OpenResetting?
    {
      assert ThreadOK(s, s.threads[t]);
    }
  }

  /** An open of the version that is open already is let in, and nothing cached is lost. */
  lemma OpenJoins(w: World, s: State, t: nat, h: nat, obj: Object) returns (s': State)
    requires Reached(w, s) && MayOpen(w, s, t, h, obj) && s.opens > 0 && s.fp == obj.validator
    requires obj.validator.None? ==> s.obj == Some(obj.content)
    ensures Leads(w, s, s', false) && HasOpened(s, s', h, obj) && s'.rs == s.rs
  {
    SameVersion(w, s, obj);
    var s0 := Decides(w, s, t, h, obj);
    s' := OpensAtOnce(w, s, t, h, obj, s0);
  }

  /** An open of another version than the one that is open is refused. */
  lemma OpenRefused(w: World, s: State, t: nat, h: nat, obj: Object) returns (s': State)
    requires Reached(w, s) && MayOpen(w, s, t, h, obj) && s.opens > 0 && s.fp != obj.validator
    ensures Leads(w, s, s', false) && s' == s.(grace := s'.grace)
  {
    Unhindered(w, s);
    var s1 := Inside(s, t, OpenBody(obj));
    EntersOpen(w, s, t, obj);
    Left(s, t, OpenBody(obj));
    s' := Step(SAFE, w, s1, DecideOpen(t, Opened(h))).value;
    One(w, s1, DecideOpen(t, Opened(h)), s', false);
    Then(w, s, s1, s', false);
  }

  lemma Unhindered(w: World, s: State)
    requires Reached(w, s) && s.opens > 0
    ensures s.closing.None? && !SomeResetting(s)
  {
    ReachedInv(w, s);
    assert s.handles != map[];
    forall t | t in s.threads
      ensures !s.threads[t].OpenResetting?
    {
      assert ThreadOK(s, s.threads[t]);
    }
  }

  lemma CachedOf(w: World, s: State, obj: Object)
    requires Reached(w, s) && Known(w, obj) && obj.validator.Some? && s.fp == obj.validator && s.file.Some?
    ensures Fits(s, obj)
  {
    ReachedInv(w, s);
    forall b | b in s.rs
      ensures 0 <= b < |obj.content|
    {
      assert Holds(s, w[s.fp.value], b);
    }
  }

  /** The first open of the version that is on disk keeps what is cached of it. */
  lemma OpenKeeps(w: World, s: State, t: nat, h: nat, obj: Object) returns (s': State)
    requires Reached(w, s) && MayOpen(w, s, t, h, obj) && s.opens == 0 && s.closing.None? && !SomeResetting(s)
    requires obj.validator.Some? && s.fp == obj.validator && s.file.Some?
    ensures Leads(w, s, s', false) && HasOpened(s, s', h, obj) && s'.rs == s.rs
  {
    CachedOf(w, s, obj);
    var s0 := Decides(w, s, t, h, obj);
    s' := OpensAtOnce(w, s, t, h, obj, s0);
  }

  /** The first open of any other version, or without a validator, is let in to an empty cache. */
  lemma OpenResets(w: World, s: State, t: nat, h: nat, obj: Object) returns (s': State)
    requires Reached(w, s) && MayOpen(w, s, t, h, obj) && s.opens == 0 && s.closing.None? && !SomeResetting(s)
    requires s.live == map[] && (obj.validator.None? || s.fp != obj.validator)
    ensures Leads(w, s, s', false) && HasOpened(s, s', h, obj) && s'.rs == {}
  {
    if s.rs != {} && s.dls.Some? {
      s' := OpensLater(w, s, t, h, obj);
    } else {
      var s0 := Decides(w, s, t, h, obj);
      s' := OpensAtOnce(w, s, t, h, obj, s0);
    }
  }

  /** An open that stops the old scheduler first. */
  lemma OpensLater(w: World, s: State, t: nat, h: nat, obj: Object) returns (s': State)
    requires MayOpen(w, s, t, h, obj) && s.opens == 0 && s.closing.None? && !SomeResetting(s)
    requires s.live == map[] && MustReset(s, obj.validator) && s.dls.Some?
    ensures Leads(w, s, s', false) && HasOpened(s, s', h, obj) && s'.rs == {}
  {
    var s1 := Inside(s, t, OpenBody(obj));
    EntersOpen(w, s, t, obj);
    assert !SomeResetting(s1);
    var g := s.dls.value;
    NowInside(s, t, OpenBody(obj), OpenResetting(obj, g));
    var s2 := Inside(s, t, OpenResetting(obj, g)).(grace := false, dls := None);
    One(w, s1, DecideOpen(t, Opened(h)), s2, false);
    Then(w, s, s1, s2, false);
    s' := Resumes(w, s, s2, t, h, obj, g);
    Then(w, s, s2, s', false);
  }

  lemma Resumes(w: World, s: State, s2: State, t: nat, h: nat, obj: Object, g: nat) returns (s': State)
    requires MayOpen(w, s, t, h, obj) && s.live == map[]
    requires s2 == Inside(s, t, OpenResetting(obj, g)).(grace := false, dls := None)
    ensures Leads(w, s2, s', false) && HasOpened(s, s', h, obj) && s'.rs == {}
  {
    var s0 := Cleared(s.(grace := false, dls := None, closed := s.closed + {g}));
    s' := CommitShape(s0, t, OpenResetting(obj, g), h, obj);
    One(w, s2, ResumeOpen(t, Opened(h)), s', false);
  }

  /** The caller is outside, without a handle. */
  ghost predicate ShutOut(s: State, s': State, t: nat) {
    s'.handles == s.handles && s'.opens == s.opens && s'.threads == s.threads - {t} && s'.pending == s.pending - 1
  }

  lemma CommitFails(s: State, t: nat, obj: Object, outcome: OpenOutcome)
    requires !outcome.Opened?
    ensures ShutOut(s, CommitOpen(s, t, obj, outcome), t) && ShutOut(s, ResetAndCommit(s, t, obj, outcome), t)
  {
  }

  /** An open that fails leaves its caller outside and without a handle. */
  lemma FailedOpen(w: World, s: State, t: nat, outcome: OpenOutcome) returns (r: Option<State>)
    requires t in s.threads && s.threads[t].OpenBody? && !outcome.Opened?
    ensures r == Step(SAFE, w, s, DecideOpen(t, outcome))
    ensures r.Some? ==> ShutOut(s, r.value, t) || (t in r.value.threads && r.value.threads[t].OpenResetting?)
  {
    r := Step(SAFE, w, s, DecideOpen(t, outcome));
    DecideShapes(w, s, t, outcome);
    CommitFails(s.(grace := false), t, s.threads[t].obj, outcome);
  }

  lemma DecideShapes(w: World, s: State, t: nat, outcome: OpenOutcome)
    requires t in s.threads && s.threads[t].OpenBody?
    ensures var obj, s0, r := s.threads[t].obj, s.(grace := false), Step(SAFE, w, s, DecideOpen(t, outcome));
      || r == None || r == Some(Leave(s0, t))
      || r == Some(ResetAndCommit(s0, t, obj, outcome)) || r == Some(CommitOpen(s0, t, obj, outcome))
      || (s.dls.Some? && r == Some(Move(s0.(dls := None), t, OpenResetting(obj, s.dls.value))))
  {
  }

  lemma FailedResume(w: World, s: State, t: nat, outcome: OpenOutcome) returns (r: Option<State>)
    requires t in s.threads && s.threads[t].OpenResetting? && !outcome.Opened?
    ensures r == Step(SAFE, w, s, ResumeOpen(t, outcome))
    ensures r.Some? ==> ShutOut(s, r.value, t)
  {
    CommitFails(s.(closed := s.closed + {s.threads[t].group}), t, s.threads[t].obj, outcome);
    r := ResumeOpenStep(SAFE, s, t, outcome);
  }

  /******************************* Releases **********************************/

  /** What the release of handle h, and the closing of the item if it was the last, leave untouched. */
  ghost predicate GaveUp(s: State, s': State, h: nat) {
    && s'.handles == s.handles - {h} && s'.opens == s.opens - 1
    && s'.threads == s.threads && s'.pending == s.pending
    && s'.file == s.file && s'.rs == s.rs && s'.size == s.size && s'.fp == s.fp
  }

  /** A release gives up its handle; the last one closes the item, at once or after the grace period. */
  lemma ReleaseEnds(w: World, s: State, t: nat, h: nat, keepHandle: bool) returns (s': State)
    requires Reached(w, s) && t !in s.threads && !s.beingReset && h in s.handles && !Used(s, h) && s.live == map[]
    ensures Leads(w, s, s', false) && GaveUp(s, s', h)
    ensures s.opens > 1 ==> s'.fdOpen == s.fdOpen && s'.dls == s.dls && s'.grace == s.grace
    ensures s.opens == 1 && keepHandle ==> s'.grace && s'.fdOpen == s.fdOpen && s'.dls == s.dls
    ensures s.opens == 1 && !keepHandle ==> !s'.fdOpen && s'.dls.None? && s'.grace == s.grace
  {
    SomeOpen(w, s);
    var s1 := Inside(s, t, ReleaseBody(h));
    One(w, s, EnterRelease(t, h), s1, false);
    if s.opens == 1 && !keepHandle && s.dls.Some? {
      s' := ClosesLater(w, s, s1, t, h);
    } else {
      s' := GivesUp(w, s, s1, t, h, keepHandle);
    }
    Then(w, s, s1, s', false);
  }

  lemma SomeOpen(w: World, s: State)
    requires Reached(w, s)
    ensures s.handles != map[] <==> s.opens > 0
    ensures s.opens >= 0 && (s.opens > 0 ==> s.size >= 0)
  {
    ReachedInv(w, s);
    assert s.opens > 0 ==> s.handles != map[];
    if h :| h in s.handles {
      Removed(s.handles, h);
    }
  }

  lemma GivesUp(w: World, s: State, s1: State, t: nat, h: nat, keepHandle: bool) returns (s': State)
    requires t !in s.threads && h in s.handles && s1 == Inside(s, t, ReleaseBody(h))
    requires s.opens > 0 && (s.opens == 1 ==> keepHandle || s.dls.None?)
    ensures Leads(w, s1, s', false) && GaveUp(s, s', h)
    ensures s.opens > 1 ==> s'.fdOpen == s.fdOpen && s'.dls == s.dls && s'.grace == s.grace
    ensures s.opens == 1 && keepHandle ==> s'.grace && s'.fdOpen == s.fdOpen && s'.dls == s.dls
    ensures s.opens == 1 && !keepHandle ==> !s'.fdOpen && s'.dls.None? && s'.grace == s.grace
  {
    Left(s, t, ReleaseBody(h));
    s' := Step(SAFE, w, s1, DoRelease(t, keepHandle)).value;
    One(w, s1, DoRelease(t, keepHandle), s', false);
  }

  lemma ClosesLater(w: World, s: State, s1: State, t: nat, h: nat) returns (s': State)
    requires t !in s.threads && h in s.handles && s1 == Inside(s, t, ReleaseBody(h))
    requires s.opens == 1 && s.dls.Some? && s.live == map[]
    ensures Leads(w, s1, s', false) && GaveUp(s, s', h) && !s'.fdOpen && s'.dls.None? && s'.grace == s.grace
  {
    var g := s.dls.value;
    NowInside(s, t, ReleaseBody(h), ReleaseClosing(g));
    var s2 := Inside(s, t, ReleaseClosing(g)).(opens := 0, handles := s.handles - {h}, dls := None);
    One(w, s1, DoRelease(t, false), s2, false);
    s' := Closes(w, s2, s, t, g);
    Then(w, s1, s2, s', false);
  }

  lemma Closes(w: World, s2: State, s: State, t: nat, g: nat) returns (s': State)
    requires t !in s.threads && s2.threads == s.threads[t := ReleaseClosing(g)] && s2.live == map[]
    ensures s' == s2.(pending := s2.pending - 1, threads := s.threads, fdOpen := false, closed := s2.closed + {g})
    ensures Leads(w, s2, s', false)
  {
    Left(s, t, ReleaseClosing(g));
    s' := s2.(pending := s2.pending - 1, threads := s.threads, fdOpen := false, closed := s2.closed + {g});
    One(w, s2, FinishRelease(t), s', false);
  }

  /** When the grace period ends nobody has the item open, it is closed and what is cached stays. */
  lemma GraceEnds(w: World, s: State) returns (s': State)
    requires s.grace && s.opens == 0 && s.closing.None? && s.live == map[]
    ensures Leads(w, s, s', false) && !s'.fdOpen && s'.dls.None? && s'.closing.None? && !s'.grace
    ensures s'.rs == s.rs && s'.file == s.file && s'.fp == s.fp && s'.size == s.size
    ensures s'.threads == s.threads && s'.handles == s.handles && s'.pending == s.pending
  {
    if s.dls.None? {
      s' := s.(grace := false, fdOpen := false);
      One(w, s, FireGrace, s', false);
    } else {
      var s1 := s.(grace := false, dls := None, closing := s.dls);
      One(w, s, FireGrace, s1, false);
      s' := s.(grace := false, dls := None, fdOpen := false, closed := s.closed + {s.dls.value});
      One(w, s1, FinishGrace, s', false);
      Then(w, s, s1, s', false);
    }
  }

  /******************************** Cleaner **********************************/

  /** The cleaner takes hold of an open item exactly when nobody is inside, it is not in grace and there is something to reset. */
  lemma ResetBegins(w: World, s: State)
    requires Reached(w, s) && s.cleaner.Resting?
    ensures Step(SAFE, w, s, StartReset).Some? <==>
            s.opens > 0 && !s.grace && s.pending == 0 && (s.rs != {} || s.beingReset)
  {
    ReachedInv(w, s);
  }

  /**
   A reset in place empties the item and keeps its readers; one that fails later than
   at closing the file has emptied it too, and holds off callers if the disk is full.
   */
  lemma ResetEnds(w: World, s: State, r: ResetOutcome) returns (s': State)
    requires Reached(w, s) && s.cleaner.Resting? && Step(SAFE, w, s, StartReset).Some? && s.live == map[]
    requires r.CloseFailed? ==> s.fdOpen
    ensures Leads(w, s, s', false) && s'.cleaner.Resting?
    ensures s'.handles == s.handles && s'.opens == s.opens && s'.obj == s.obj && s'.fp == s.fp && s'.size == s.size
    ensures s'.threads == s.threads && s'.pending == s.pending
    ensures if r.CloseFailed? then s'.rs == s.rs && !s'.fdOpen else s'.rs == {}
    ensures s'.beingReset <==> !r.CloseFailed? && !r.Reset? && r.noSpace
    ensures r.Reset? ==> s'.fdOpen && s'.file.Some? && |s'.file.value| == s.size
  {
    SomeOpen(w, s);
    var s1 := s.(beingReset := true, dls := None, cleaner := Stopping(s.dls));
    One(w, s, StartReset, s1, false);
    s' := Finishes(w, s1, r);
    Then(w, s, s1, s', false);
  }

  lemma Finishes(w: World, s: State, r: ResetOutcome) returns (s': State)
    requires s.cleaner.Stopping? && s.live == map[] && s.dls.None? && (r.CloseFailed? ==> s.fdOpen)
    requires s.size >= 0
    ensures Leads(w, s, s', false) && s'.cleaner.Resting?
    ensures s'.handles == s.handles && s'.opens == s.opens && s'.obj == s.obj && s'.fp == s.fp && s'.size == s.size
    ensures s'.threads == s.threads && s'.pending == s.pending
    ensures if r.CloseFailed? then s'.rs == s.rs && !s'.fdOpen else s'.rs == {}
    ensures s'.beingReset <==> !r.CloseFailed? && !r.Reset? && r.noSpace
    ensures r.Reset? ==> s'.fdOpen && s'.file.Some? && |s'.file.value| == s.size
  {
    s' := Step(SAFE, w, s, FinishReset(r)).value;
    One(w, s, FinishReset(r), s', false);
  }

  /** An unused item is emptied altogether. */
  lemma DropEmpties(w: World, s: State) returns (s': State)
    requires s.cleaner.Resting? && s.opens == 0 && !s.grace && !SomeOpening(s) && s.live == map[]
    ensures Step(SAFE, w, s, DropUnused) == Some(s')
    ensures s'.rs == {} && s'.file.None? && s'.fp.None? && s'.obj.None? && !s'.fdOpen && s'.dls.None?
    ensures s'.threads == s.threads && s'.handles == s.handles && s'.pending == s.pending
  {
    s' := Step(SAFE, w, s, DropUnused).value;
  }
}
