/**
 Cache transparency, downloader coverage and version isolation over every schedule
 that meets the three assumptions.
 */
module CacheProtocolProofs {
  import opened Common
  import opened Version
  import opened CacheProtocol
  import Ranges
  import Item

  /******************************* Invariant *********************************/

  /** `b` is the right byte of `src` at position `x` of the data file. */
  predicate Holds(s: State, src: Bytes, x: int) {
    0 <= x < |src| && s.file.Some? && x < |s.file.value| && s.file.value[x] == src[x]
  }

  /** Cached bytes lie inside the object and are the bytes of the version they are filed under. */
  ghost predicate Faithful(w: World, s: State) {
    && (forall b :: b in s.rs ==> 0 <= b < s.size && (s.file.Some? ==> b < |s.file.value|))
    && (s.obj.Some? && s.file.Some? ==> forall b :: b in s.rs ==> Holds(s, s.obj.value, b))
    && (s.fp.Some? && (s.rs != {} || s.obj.Some?) ==> s.fp.value in w)
    && (s.fp.Some? && s.file.Some? ==> forall b :: b in s.rs ==> Holds(s, w[s.fp.value], b))
    && (s.obj.Some? ==> s.size == |s.obj.value|)
    && (s.obj.Some? && s.fp.Some? ==> w[s.fp.value] == s.obj.value)
    && (s.fdOpen ==> s.file.Some?)
    && (s.fdOpen && s.obj.Some? ==> |s.file.value| == s.size)
  }

  /** Ranges without a file, as a failed reset may leave them, are relied on by nobody. */
  ghost predicate FileThere(s: State) {
    s.file.None? && s.rs != {} ==> s.handles == map[] && s.live == map[]
  }

  /** All open readers opened the version the item now holds. */
  ghost predicate OneVersion(s: State) {
    forall h :: h in s.handles ==>
      s.obj == Some(s.handles[h].content) && s.fp == s.handles[h].validator
  }

  ghost predicate Counted(s: State) {
    && s.opens == |s.handles|
    && s.pending == |s.threads|
    && (s.beingReset ==> s.threads == map[])
    && (s.beingReset ==> s.handles != map[])
    && (s.cleaner.Stopping? ==> s.beingReset && s.dls.None?)
  }

  ghost predicate ThreadOK(s: State, p: Phase) {
    match p
    case OpenBody(obj) => true
    case OpenResetting(obj, g) =>
      s.handles == map[] && g < s.groups && s.dls != Some(g) && !s.grace && s.closing.None?
    case ReleaseBody(h) => h in s.handles
    case ReleaseClosing(g) => g < s.groups && s.dls != Some(g)
    case ReadBegin(h, off, len) => h in s.handles
    case Ensuring(h, off, len, g) => h in s.handles && off >= 0 && Cached(s, off, len) && s.dls == Some(g)
    case Requesting(h, off, len, g) => h in s.handles && off >= 0 && s.dls == Some(g)
    case Waiting(h, off, len, g) => h in s.handles && off >= 0 && s.dls == Some(g)
    case Granted(h, off, len) => h in s.handles && off >= 0 && Cached(s, off, len)
    case ReadDone(h, off, len, out) =>
      h in s.handles && (out.Some? ==> out.value == Slice(s.handles[h].content, off, len))
  }

  ghost predicate Threads(w: World, s: State) {
    && (forall t :: t in s.threads ==> ThreadOK(s, s.threads[t]))
    && (forall t :: t in s.threads && s.threads[t].OpenBody? ==> Known(w, s.threads[t].obj))
    && (forall t :: t in s.threads && s.threads[t].OpenResetting? ==> Known(w, s.threads[t].obj))
    && (forall t, u :: t in s.threads && u in s.threads && t != u ==> Exclusive(s.threads[t], s.threads[u]))
  }

  /** No one else uses a handle that is being released, and one version reset runs at a time. */
  predicate Exclusive(p: Phase, q: Phase) {
    && (p.ReleaseBody? && (q.IsRead() || q.ReleaseBody?) ==> p.handle != q.handle)
    && !(p.OpenResetting? && q.OpenResetting?)
  }

  ghost predicate Known(w: World, obj: Object) {
    obj.validator.Some? ==> obj.validator.value in w && w[obj.validator.value] == obj.content
  }

  ghost predicate Groups(s: State) {
    && (s.dls.Some? ==> s.dls.value < s.groups && s.dls.value !in s.closed)
    && (forall g :: g in s.closed ==> g < s.groups)
    && (s.closing.Some? ==> s.closing.value < s.groups && s.dls != s.closing && s.handles == map[])
    && (s.cleaner.Stopping? && s.cleaner.group.Some? ==>
          s.cleaner.group.value < s.groups && s.dls != s.cleaner.group)
  }

  /** What a downloader has passed is cached, and its stream is of the current version. */
  ghost predicate Covered(s: State) {
    forall d :: d in s.live ==>
      && s.obj == Some(s.live[d].src)
      && 0 <= s.live[d].start <= s.live[d].offset <= |s.live[d].src|
      && Passed(s, s.live[d])
      && Owned(s, s.live[d].group)
  }

  /** A scheduler instance with live downloads is current or being closed by someone. */
  ghost predicate Owned(s: State, g: nat) {
    || s.dls == Some(g)
    || s.closing == Some(g)
    || s.cleaner == Stopping(Some(g))
    || exists t :: t in s.threads && Closes(s.threads[t], g)
  }

  predicate Closes(p: Phase, g: nat) {
    (p.OpenResetting? || p.ReleaseClosing?) && p.group == g
  }

  ghost predicate Passed(s: State, dl: Download) {
    forall b :: dl.start <= b < dl.offset ==> b in s.rs
  }

  ghost predicate Inv(w: World, s: State) {
    Faithful(w, s) && FileThere(s) && OneVersion(s) && Counted(s) && Threads(w, s) && Groups(s) && Covered(s)
  }

  const SAFE := Config(true, true, true)

  /************************** Counting callers *******************************/

  lemma Removed<T>(m: map<nat, T>, k: nat)
    requires k in m
    ensures |m - {k}| == |m| - 1
    ensures m - {k} == map[] <==> |m| == 1
  {
    var m' := m - {k};
    assert m.Keys == m'.Keys + {k};
  }

  lemma Added<T>(m: map<nat, T>, k: nat, v: T)
    requires k !in m
    ensures |m[k := v]| == |m| + 1
  {
    assert m[k := v].Keys == m.Keys + {k};
  }

  lemma Replaced<T>(m: map<nat, T>, k: nat, v: T)
    requires k in m
    ensures |m[k := v]| == |m|
  {
    assert m[k := v].Keys == m.Keys;
  }

  lemma InitInv(w: World, s: State)
    requires Init(w, s)
    ensures Inv(w, s)
  {
  }

  /******************************** Frames ***********************************/

  /** Threads that stay put are still in order when ranges only grow. */
  lemma ThreadsFrame(w: World, s: State, s': State, t: int)
    requires Threads(w, s)
    requires forall u :: u in s'.threads && u != t ==> u in s.threads && s'.threads[u] == s.threads[u]
    requires t in s'.threads ==> ThreadOK(s', s'.threads[t])
    requires t in s'.threads && s'.threads[t].OpenBody? ==> Known(w, s'.threads[t].obj)
    requires t in s'.threads && s'.threads[t].OpenResetting? ==> Known(w, s'.threads[t].obj)
    requires t in s'.threads ==> forall u :: u in s.threads && u != t ==>
               Exclusive(s.threads[u], s'.threads[t]) && Exclusive(s'.threads[t], s.threads[u])
    requires s'.handles == s.handles && s'.size == s.size && s.rs <= s'.rs
    requires s.groups <= s'.groups
    requires s'.dls == s.dls || (s.dls.None? && s'.dls == Some(s.groups))
    requires (s'.grace ==> s.grace) && (s.closing.None? ==> s'.closing.None?)
    ensures Threads(w, s')
  {
    forall u | u in s'.threads && u != t ensures ThreadOK(s', s'.threads[u]) {
      assert ThreadOK(s, s.threads[u]);
    }
    forall u, v | u in s'.threads && v in s'.threads && u != v
      ensures Exclusive(s'.threads[u], s'.threads[v])
    {
      assert u != t && v != t ==> Exclusive(s.threads[u], s.threads[v]);
    }
  }

  /** Downloads keep their cover when ranges only grow and their closers stay. */
  lemma CoveredFrame(s: State, s': State)
    requires Covered(s)
    requires s'.live == s.live && s'.obj == s.obj && s.rs <= s'.rs
    requires s.dls.Some? ==> s'.dls == s.dls
    requires s'.closing == s.closing && s'.cleaner == s.cleaner
    requires forall u :: u in s.threads && StillNeeded(s, s.threads[u]) ==> u in s'.threads && s'.threads[u] == s.threads[u]
    ensures Covered(s')
  {
    forall d | d in s.live ensures Passed(s', s.live[d]) && Owned(s', s.live[d].group) {
      assert Passed(s, s.live[d]) && Owned(s, s.live[d].group);
      if t :| t in s.threads && Closes(s.threads[t], s.live[d].group) {
        assert StillNeeded(s, s.threads[t]);
        assert Closes(s'.threads[t], s.live[d].group);
      }
    }
  }

  ghost predicate StillNeeded(s: State, p: Phase) {
    (p.OpenResetting? || p.ReleaseClosing?) && !NoneLive(s, p.group)
  }

  /******************************** Reads ************************************/

  /** A reader that moves on within its read. */
  lemma MoveKeeps(w: World, s: State, t: nat, p: Phase)
    requires Inv(w, s) && t in s.threads && s.threads[t].IsRead()
    requires p.IsRead() && p.handle == s.threads[t].handle && ThreadOK(s, p)
    ensures Inv(w, Move(s, t, p))
  {
    var s' := Move(s, t, p);
    Replaced(s.threads, t, p);
    MoveThreads(w, s, t, p);
    CoveredFrame(s, s');
  }

  lemma MoveThreads(w: World, s: State, t: nat, p: Phase)
    requires Threads(w, s) && t in s.threads && s.threads[t].IsRead()
    requires p.IsRead() && p.handle == s.threads[t].handle && ThreadOK(s, p)
    ensures Threads(w, Move(s, t, p))
  {
    var s' := Move(s, t, p);
    forall u | u in s.threads && u != t
      ensures Exclusive(s.threads[u], p) && Exclusive(p, s.threads[u])
    {
      assert Exclusive(s.threads[u], s.threads[t]);
    }
    assert ThreadOK(s', p);
    ThreadsFrame(w, s, s', t);
  }

  lemma CreateKeeps(w: World, s: State)
    requires Inv(w, s) && s.cleaner.Resting?
    ensures Inv(w, CreateDownloaders(s))
  {
    var s' := CreateDownloaders(s);
    if s' != s {
      forall t | t in s.threads ensures ThreadOK(s', s.threads[t]) {
        assert ThreadOK(s, s.threads[t]);
      }
      CoveredFrame(s, s');
    }
  }

  lemma CheckRangeKeeps(w: World, s: State, t: nat)
    requires Inv(w, s) && CheckRangeStep(s, t).Some?
    ensures Inv(w, CheckRangeStep(s, t).value)
  {
    var s' := CheckRangeStep(s, t).value;
    assert ThreadOK(s, s.threads[t]);
    CreateKeeps(w, s);
    if s.fdOpen && s.threads[t].off >= 0 && !Cached(s, s.threads[t].off, s.threads[t].len) {
      MoveKeeps(w, CreateDownloaders(s), t, s'.threads[t]);
    } else {
      MoveKeeps(w, s, t, s'.threads[t]);
    }
  }

  lemma ReadFileKeeps(w: World, s: State, t: nat)
    requires Inv(w, s) && ReadFileStep(s, t).Some?
    ensures Inv(w, ReadFileStep(s, t).value)
  {
    var Granted(h, off, len) := s.threads[t];
    assert ThreadOK(s, s.threads[t]);
    if s.fdOpen {
      forall b | 0 <= b < |s.file.value| && off <= b < off + len
        ensures s.file.value[b] == s.handles[h].content[b]
      {
        assert b in s.rs;
        assert Holds(s, s.obj.value, b);
      }
    }
    MoveKeeps(w, s, t, ReadFileStep(s, t).value.threads[t]);
  }

  lemma AnswerKeeps(w: World, s: State, t: nat, a: Action)
    requires Inv(w, s) && AnswerStep(s, t, a).Some?
    ensures Inv(w, AnswerStep(s, t, a).value)
  {
    assert ThreadOK(s, s.threads[t]);
    MoveKeeps(w, s, t, AnswerStep(s, t, a).value.threads[t]);
  }

  lemma EnsuredKeeps(w: World, s: State, t: nat, ok: bool)
    requires Inv(w, s)
    ensures EnsuredStep(s, t, ok).Some? ==> Inv(w, EnsuredStep(s, t, ok).value)
    ensures QueueStep(s, t, ok).Some? ==> Inv(w, QueueStep(s, t, ok).value)
  {
    if t in s.threads {
      assert ThreadOK(s, s.threads[t]);
      if EnsuredStep(s, t, ok).Some? {
        MoveKeeps(w, s, t, EnsuredStep(s, t, ok).value.threads[t]);
      }
      if QueueStep(s, t, ok).Some? {
        MoveKeeps(w, s, t, QueueStep(s, t, ok).value.threads[t]);
      }
    }
  }

  /** Whoever leaves takes nothing with it. */
  lemma LeaveKeeps(w: World, s: State, t: nat)
    requires Inv(w, s) && t in s.threads && !StillNeeded(s, s.threads[t])
    ensures Inv(w, Leave(s, t))
  {
    var s' := Leave(s, t);
    Removed(s.threads, t);
    ThreadsFrame(w, s, s', t);
    CoveredFrame(s, s');
  }

  lemma EnterKeeps(w: World, s: State, t: nat, p: Phase)
    requires Inv(w, s) && t !in s.threads && !s.beingReset && ThreadOK(s, p)
    requires p.OpenBody? ==> Known(w, p.obj)
    requires !p.OpenResetting?
    requires forall u :: u in s.threads ==> Exclusive(p, s.threads[u]) && Exclusive(s.threads[u], p)
    ensures Inv(w, Enter(s, t, p))
  {
    var s' := Enter(s, t, p);
    Added(s.threads, t, p);
    ThreadsFrame(w, s, s', t);
    CoveredFrame(s, s');
  }

  lemma EnterReadKeeps(w: World, s: State, t: nat, h: nat, off: int, len: nat)
    requires Inv(w, s) && EnterReadStep(s, t, h, off, len).Some?
    ensures Inv(w, EnterReadStep(s, t, h, off, len).value)
  {
    EnterKeeps(w, s, t, ReadBegin(h, off, len));
  }

  /******************************* Downloads *********************************/

  lemma StartDownloadCovered(w: World, s: State, d: nat, g: nat, pos: int)
    requires Inv(w, s) && StartDownloadStep(s, d, g, pos).Some?
    ensures Covered(StartDownloadStep(s, d, g, pos).value)
  {
    var s' := StartDownloadStep(s, d, g, pos).value;
    var t :| t in s.threads
      && (s.threads[t].Ensuring? || s.threads[t].Requesting? || s.threads[t].Waiting?) && s.threads[t].group == g;
    assert ThreadOK(s, s.threads[t]);
    forall e | e in s'.live ensures Passed(s', s'.live[e]) && Owned(s', s'.live[e].group) {
      assert e != d ==> Passed(s, s.live[e]) && Owned(s, s.live[e].group);
    }
  }

  /** Downloads come and go without touching the callers. */
  lemma DownloadThreads(w: World, s: State, s': State)
    requires Threads(w, s) && s.rs <= s'.rs
    requires s' == s.(live := s'.live, rs := s'.rs, file := s'.file)
    ensures Threads(w, s')
  {
    ThreadsFrame(w, s, s', -1);
  }

  lemma StartDownloadKeeps(w: World, s: State, d: nat, g: nat, pos: int)
    requires Inv(w, s) && StartDownloadStep(s, d, g, pos).Some?
    ensures Inv(w, StartDownloadStep(s, d, g, pos).value)
  {
    StartDownloadCovered(w, s, d, g, pos);
    DownloadThreads(w, s, StartDownloadStep(s, d, g, pos).value);
    AskedIsOpen(w, s, g);
  }

  /** Who waits in a scheduler has the item open. */
  lemma AskedIsOpen(w: World, s: State, g: nat)
    requires Threads(w, s) && Asked(s, g)
    ensures s.handles != map[]
  {
    var t :| t in s.threads
      && (s.threads[t].Ensuring? || s.threads[t].Requesting? || s.threads[t].Waiting?) && s.threads[t].group == g;
    assert ThreadOK(s, s.threads[t]);
  }

  lemma StopDownloadCovered(s: State, d: nat)
    requires Covered(s) && StopDownloadStep(s, d).Some?
    ensures Covered(StopDownloadStep(s, d).value)
  {
    var s' := StopDownloadStep(s, d).value;
    forall e | e in s'.live ensures Passed(s', s'.live[e]) && Owned(s', s'.live[e].group) {
      assert Passed(s, s.live[e]) && Owned(s, s.live[e].group);
    }
  }

  lemma StopDownloadKeeps(w: World, s: State, d: nat)
    requires Inv(w, s) && StopDownloadStep(s, d).Some?
    ensures Inv(w, StopDownloadStep(s, d).value)
  {
    DownloadThreads(w, s, StopDownloadStep(s, d).value);
    StopDownloadCovered(s, d);
  }

  lemma WriteDownloadKeeps(w: World, s: State, d: nat, n: nat)
    requires Inv(w, s) && WriteDownloadStep(s, d, n).Some?
    ensures Inv(w, WriteDownloadStep(s, d, n).value)
  {
    WriteDownloadFaithful(w, s, d, n);
    DownloadThreads(w, s, WriteDownloadStep(s, d, n).value);
    WriteDownloadCovered(s, d, n);
  }

  lemma WriteDownloadCovered(s: State, d: nat, n: nat)
    requires Covered(s) && WriteDownloadStep(s, d, n).Some?
    ensures Covered(WriteDownloadStep(s, d, n).value)
  {
    var s' := WriteDownloadStep(s, d, n).value;
    forall e | e in s'.live
      ensures s'.obj == Some(s'.live[e].src) && 0 <= s'.live[e].start <= s'.live[e].offset <= |s'.live[e].src|
      ensures Passed(s', s'.live[e]) && Owned(s', s'.live[e].group)
    {
      assert Passed(s, s.live[e]) && Owned(s, s.live[e].group);
    }
  }

  lemma WriteDownloadFaithful(w: World, s: State, d: nat, n: nat)
    requires Inv(w, s) && WriteDownloadStep(s, d, n).Some?
    ensures Faithful(w, WriteDownloadStep(s, d, n).value)
  {
    var s' := WriteDownloadStep(s, d, n).value;
    var dl := s.live[d];
    assert s.obj == Some(dl.src);
    forall b | b in s'.rs
      ensures 0 <= b < s'.size && b < |s'.file.value| && s'.file.value[b] == dl.src[b]
    {
      if b in s.rs {
        assert Holds(s, dl.src, b);
      } else {
        assert dl.offset <= b < dl.offset + n;
      }
    }
  }

  /******************************** Cleaner **********************************/

  lemma StartResetKeeps(w: World, s: State)
    requires Inv(w, s) && StartResetStep(s).Some?
    ensures Inv(w, StartResetStep(s).value)
  {
    assert s.threads == map[] by {
      if t :| t in s.threads { Removed(s.threads, t); }
    }
    assert s.handles != map[];
    var s' := StartResetStep(s).value;
    forall e | e in s'.live ensures Passed(s', s'.live[e]) {
      assert Passed(s, s.live[e]);
    }
  }

  /** While the cleaner holds the item no one else does. */
  lemma LiveIsCleaners(w: World, s: State)
    requires Inv(w, s) && s.cleaner.Stopping?
    ensures forall d :: d in s.live ==> s.cleaner.group == Some(s.live[d].group)
  {
    forall d | d in s.live
      ensures s.cleaner.group == Some(s.live[d].group)
    {
      assert Owned(s, s.live[d].group);
    }
  }

  /** So what it has stopped was all there was. */
  lemma StoppedIsAll(w: World, s: State)
    requires Inv(w, s) && s.cleaner.Stopping?
    requires s.cleaner.group.Some? ==> NoneLive(s, s.cleaner.group.value)
    ensures s.live == map[]
  {
    LiveIsCleaners(w, s);
  }

  /** The cleaner lets go of an item whose bytes it has dropped or left alone. */
  lemma LetGoKeeps(w: World, s: State, s': State)
    requires Inv(w, s) && s.cleaner.Stopping? && s.live == map[]
    requires s' == s.(cleaner := Resting, closed := s'.closed, fdOpen := s'.fdOpen, file := s'.file, rs := s'.rs,
                      beingReset := s'.beingReset)
    requires s'.closed == s.closed + if s.cleaner.group.Some? then {s.cleaner.group.value} else {}
    requires s'.rs == {} || (s'.rs == s.rs && s'.file == s.file)
    requires s'.fdOpen ==> s'.file.Some? && |s'.file.value| == Ranges.Max(s.size, 0)
    ensures Inv(w, s')
  {
  }

  lemma FinishResetKeeps(w: World, s: State, r: ResetOutcome)
    requires Inv(w, s) && FinishResetStep(s, r).Some?
    ensures Inv(w, FinishResetStep(s, r).value)
  {
    StoppedIsAll(w, s);
    if r.Reset? {
      var size := Ranges.Max(s.size, 0);
      var closed := s.closed + if s.cleaner.group.Some? then {s.cleaner.group.value} else {};
      var s1 := s.(cleaner := Resting, closed := closed, fdOpen := true, file := Some(Zeros(size)), rs := {},
                   beingReset := false);
      LetGoKeeps(w, s, s1);
      CreateKeeps(w, s1);
    } else {
      LetGoKeeps(w, s, FinishResetStep(s, r).value);
    }
  }

  lemma DropUnusedKeeps(w: World, s: State)
    requires Inv(w, s) && DropUnusedStep(s).Some?
    ensures Inv(w, DropUnusedStep(s).value)
  {
    var s' := DropUnusedStep(s).value;
    forall t | t in s.threads ensures ThreadOK(s', s.threads[t]) {
      assert ThreadOK(s, s.threads[t]);
      assert !s.threads[t].OpenResetting?;
    }
  }

  /******************************* Releases **********************************/

  lemma EnterReleaseKeeps(w: World, s: State, t: nat, h: nat)
    requires Inv(w, s) && EnterReleaseStep(s, t, h).Some?
    ensures Inv(w, EnterReleaseStep(s, t, h).value)
  {
    EnterKeeps(w, s, t, ReleaseBody(h));
  }

  /** The state once `t` has given up its handle and left. */
  function Dropped(s: State, t: nat): State
    requires t in s.threads && s.threads[t].ReleaseBody?
  {
    Leave(s.(opens := s.opens - 1, handles := s.handles - {s.threads[t].handle}), t)
  }

  lemma DroppedThreads(w: World, s: State, t: nat)
    requires Inv(w, s) && t in s.threads && s.threads[t].ReleaseBody?
    ensures Threads(w, Dropped(s, t))
  {
    var s' := Dropped(s, t);
    forall u | u in s'.threads ensures ThreadOK(s', s'.threads[u]) {
      assert ThreadOK(s, s.threads[u]);
      assert Exclusive(s.threads[t], s.threads[u]);
    }
    forall u, v | u in s'.threads && v in s'.threads && u != v
      ensures Exclusive(s'.threads[u], s'.threads[v])
    {
      assert Exclusive(s.threads[u], s.threads[v]);
    }
  }

  lemma DroppedKeeps(w: World, s: State, t: nat)
    requires Inv(w, s) && t in s.threads && s.threads[t].ReleaseBody?
    ensures Inv(w, Dropped(s, t))
  {
    DroppedThreads(w, s, t);
    DroppedCounts(w, s, t);
    DroppedCovers(w, s, t);
  }

  lemma DroppedCounts(w: World, s: State, t: nat)
    requires Inv(w, s) && t in s.threads && s.threads[t].ReleaseBody?
    ensures Counted(Dropped(s, t)) && OneVersion(Dropped(s, t)) && Groups(Dropped(s, t))
  {
    assert ThreadOK(s, s.threads[t]);
    Removed(s.handles, s.threads[t].handle);
    Removed(s.threads, t);
  }

  lemma DroppedCovers(w: World, s: State, t: nat)
    requires Inv(w, s) && t in s.threads && s.threads[t].ReleaseBody?
    ensures Covered(Dropped(s, t))
  {
    CoveredFrame(s, Dropped(s, t));
  }

  /** Closing the descriptor, or arming the timer, leaves the cached bytes alone. */
  lemma FdClosedKeeps(w: World, s: State, grace: bool, fdOpen: bool)
    requires Inv(w, s) && (fdOpen ==> s.fdOpen)
    requires grace ==> s.grace || !SomeResetting(s)
    ensures Inv(w, s.(fdOpen := fdOpen, grace := grace))
  {
    var s' := s.(fdOpen := fdOpen, grace := grace);
    forall t | t in s.threads ensures ThreadOK(s', s.threads[t]) {
      assert ThreadOK(s, s.threads[t]);
    }
    CoveredSame(s, s');
  }

  /** A caller takes the scheduler away from an item nobody has open, to close it. */
  lemma DetachKeeps(w: World, s: State, t: nat, p: Phase)
    requires Inv(w, s) && t !in s.threads && !s.beingReset && s.handles == map[] && s.dls.Some?
    requires Closes(p, s.dls.value)
    requires p.OpenResetting? ==> Known(w, p.obj) && !SomeResetting(s) && !s.grace && s.closing.None?
    ensures Inv(w, Enter(s.(dls := None), t, p))
  {
    var s' := Enter(s.(dls := None), t, p);
    Added(s.threads, t, p);
    forall u | u in s'.threads ensures ThreadOK(s', s'.threads[u]) {
      assert u != t ==> ThreadOK(s, s.threads[u]);
    }
    forall u, v | u in s'.threads && v in s'.threads && u != v
      ensures Exclusive(s'.threads[u], s'.threads[v])
    {
      assert u != t && v != t ==> Exclusive(s.threads[u], s.threads[v]);
      assert u != t ==> ThreadOK(s, s.threads[u]);
      assert v != t ==> ThreadOK(s, s.threads[v]);
    }
    DetachCovered(s, s', t);
  }

  lemma DetachCovered(s: State, s': State, t: nat)
    requires Covered(s) && s.dls.Some? && t !in s.threads && t in s'.threads
    requires Closes(s'.threads[t], s.dls.value)
    requires s' == s.(dls := None, pending := s'.pending, threads := s.threads[t := s'.threads[t]])
    ensures Covered(s')
  {
    forall d | d in s.live ensures Passed(s', s.live[d]) && Owned(s', s.live[d].group) {
      assert Passed(s, s.live[d]) && Owned(s, s.live[d].group);
      if s.dls == Some(s.live[d].group) {
        assert Closes(s'.threads[t], s.live[d].group);
      } else if u :| u in s.threads && Closes(s.threads[u], s.live[d].group) {
        assert Closes(s'.threads[u], s.live[d].group);
      }
    }
  }

  lemma DoReleaseShape(s: State, t: nat, keep: bool)
    requires DoReleaseStep(s, t, keep).Some?
    ensures var s1 := Dropped(s, t);
      DoReleaseStep(s, t, keep).value ==
        if s1.opens > 0 then s1
        else if keep then s1.(fdOpen := s1.fdOpen, grace := true)
        else if s.dls.None? then s1.(fdOpen := false, grace := s1.grace)
        else Enter(s1.(dls := None), t, ReleaseClosing(s.dls.value))
  {
    if s.dls.Some? {
      assert (s.threads - {t})[t := ReleaseClosing(s.dls.value)] == s.threads[t := ReleaseClosing(s.dls.value)];
    }
  }

  lemma NoneResetting(w: World, s: State, t: nat)
    requires Inv(w, s) && t in s.threads && s.threads[t].ReleaseBody?
    ensures !SomeResetting(s) && !SomeResetting(Dropped(s, t))
  {
    assert ThreadOK(s, s.threads[t]);
    forall u | u in s.threads ensures !s.threads[u].OpenResetting? {
      assert ThreadOK(s, s.threads[u]);
    }
  }

  lemma DoReleaseKeeps(w: World, s: State, t: nat, keep: bool)
    requires Inv(w, s) && DoReleaseStep(s, t, keep).Some?
    ensures Inv(w, DoReleaseStep(s, t, keep).value)
  {
    DoReleaseShape(s, t, keep);
    DroppedKeeps(w, s, t);
    var s1 := Dropped(s, t);
    NoneResetting(w, s, t);
    if s1.opens <= 0 {
      if keep || s.dls.None? {
        FdClosedKeeps(w, s1, keep || s1.grace, keep && s1.fdOpen);
      } else {
        DetachKeeps(w, s1, t, ReleaseClosing(s.dls.value));
      }
    }
  }

  /** A scheduler that is not current has finished its Close. */
  lemma ClosedKeeps(w: World, s: State, g: nat)
    requires Inv(w, s) && g < s.groups && s.dls != Some(g)
    ensures Inv(w, s.(closed := s.closed + {g}))
  {
    var s' := s.(closed := s.closed + {g});
    ThreadsFrame(w, s, s', -1);
    CoveredSame(s, s');
  }

  lemma FinishReleaseKeeps(w: World, s: State, t: nat)
    requires Inv(w, s) && FinishReleaseStep(s, t).Some?
    ensures Inv(w, FinishReleaseStep(s, t).value)
  {
    assert ThreadOK(s, s.threads[t]);
    LeaveKeeps(w, s, t);
    var s1 := Leave(s, t);
    FdClosedKeeps(w, s1, s1.grace, false);
    ClosedKeeps(w, s1.(fdOpen := false, grace := s1.grace), s.threads[t].group);
  }

  lemma FireGraceThreads(w: World, s: State)
    requires Inv(w, s) && FireGraceStep(s).Some?
    ensures Threads(w, FireGraceStep(s).value)
  {
    var s' := FireGraceStep(s).value;
    assert s.handles == map[];
    forall t | t in s.threads ensures ThreadOK(s', s.threads[t]) {
      assert ThreadOK(s, s.threads[t]);
    }
    forall u, v | u in s.threads && v in s.threads && u != v ensures Exclusive(s'.threads[u], s'.threads[v]) {
      assert Exclusive(s.threads[u], s.threads[v]);
    }
  }

  lemma FireGraceKeeps(w: World, s: State)
    requires Inv(w, s) && FireGraceStep(s).Some?
    ensures Inv(w, FireGraceStep(s).value)
  {
    var s' := FireGraceStep(s).value;
    FireGraceThreads(w, s);
    forall d | d in s.live ensures Passed(s', s.live[d]) && Owned(s', s.live[d].group) {
      assert Passed(s, s.live[d]) && Owned(s, s.live[d].group);
    }
  }

  lemma FinishGraceKeeps(w: World, s: State)
    requires Inv(w, s) && FinishGraceStep(s).Some?
    ensures Inv(w, FinishGraceStep(s).value)
  {
    var s' := FinishGraceStep(s).value;
    ThreadsFrame(w, s, s', -1);
    forall d | d in s.live ensures Passed(s', s.live[d]) && Owned(s', s.live[d].group) {
      assert Passed(s, s.live[d]) && Owned(s, s.live[d].group);
    }
  }

  /********************************* Opens ***********************************/

  lemma EnterOpenKeeps(w: World, s: State, t: nat, obj: Object)
    requires Inv(w, s) && EnterOpenStep(w, s, t, obj).Some?
    ensures Inv(w, EnterOpenStep(w, s, t, obj).value)
  {
    EnterKeeps(w, s, t, OpenBody(obj));
  }

  /** resetLocked has emptied the item and nothing is left that relied on it. */
  lemma ClearedKeeps(w: World, s: State)
    requires Inv(w, s) && s.handles == map[] && s.live == map[]
    ensures Inv(w, Cleared(s))
  {
    var s' := Cleared(s);
    forall t | t in s.threads ensures ThreadOK(s', s.threads[t]) {
      assert ThreadOK(s, s.threads[t]);
    }
  }

  /** The bytes already cached are bytes of the version being opened. */
  ghost predicate Fits(w: World, s: State, obj: Object) {
    && Known(w, obj)
    && (s.file.Some? ==> forall b :: b in s.rs ==> Holds(s, obj.content, b))
    && (s.obj == Some(obj.content) || (s.live == map[] && s.handles == map[]))
    && (s.handles != map[] ==> s.fp == obj.validator)
  }

  /** Metadata without its data file is never trusted. */
  lemma ForgottenKeeps(w: World, s: State)
    requires Inv(w, s) && s.file.None?
    ensures Inv(w, s.(rs := {}))
  {
    var s' := s.(rs := {});
    if s.rs == {} {
      assert s' == s;
    } else {
      forall t | t in s.threads ensures ThreadOK(s', s.threads[t]) {
        assert ThreadOK(s, s.threads[t]);
      }
    }
  }

  lemma IdentifiedKeeps(w: World, s: State, obj: Object)
    requires Inv(w, s) && Fits(w, s, obj)
    ensures Inv(w, Identified(s, obj))
  {
    if s.file.None? {
      ForgottenKeeps(w, s);
      SizedKeeps(w, s.(rs := {}), obj);
      assert Identified(s, obj) == Identified(s.(rs := {}), obj);
    } else {
      SizedKeeps(w, s, obj);
    }
  }

  lemma SizedKeeps(w: World, s: State, obj: Object)
    requires Inv(w, s) && Fits(w, s, obj) && (s.file.None? ==> s.rs == {})
    ensures Inv(w, Identified(s, obj))
  {
    var s' := Identified(s, obj);
    SizedBytes(w, s, obj);
    forall t | t in s.threads ensures ThreadOK(s', s.threads[t]) {
      assert ThreadOK(s, s.threads[t]);
    }
    CoveredSame(s, s');
  }

  lemma SizedBytes(w: World, s: State, obj: Object)
    requires Inv(w, s) && Fits(w, s, obj) && (s.file.None? ==> s.rs == {})
    ensures Identified(s, obj).rs == s.rs && Faithful(w, Identified(s, obj))
    ensures s.handles != map[] ==> Identified(s, obj).size == s.size
  {
    var s' := Identified(s, obj);
    forall b | b in s.rs ensures b in s'.rs && Holds(s', obj.content, b) {
      assert Holds(s, obj.content, b);
    }
  }

  /** A reset that gives up half way leaves an item that nobody has open. */
  lemma HalfResetKeeps(w: World, s: State, fileGone: bool)
    requires Inv(w, s) && s.handles == map[] && s.live == map[]
    ensures Inv(w, HalfReset(s, fileGone))
  {
    var s' := HalfReset(s, fileGone);
    forall t | t in s.threads ensures ThreadOK(s', s.threads[t]) {
      assert ThreadOK(s, s.threads[t]);
    }
  }

  lemma CoveredSame(s: State, s': State)
    requires Covered(s)
    requires s'.live == s.live && (s.live != map[] ==> s'.obj == s.obj) && s'.rs == s.rs
    requires s'.dls == s.dls && s'.closing == s.closing && s'.cleaner == s.cleaner && s'.threads == s.threads
    ensures Covered(s')
  {
    forall d | d in s.live ensures Passed(s', s.live[d]) && Owned(s', s.live[d].group) {
      assert Passed(s, s.live[d]) && Owned(s, s.live[d].group);
    }
  }

  /** A new reader of the version the item holds. */
  lemma HandleKeeps(w: World, s: State, h: nat, obj: Object)
    requires Inv(w, s) && h !in s.handles && !SomeResetting(s)
    requires s.obj == Some(obj.content) && s.fp == obj.validator && s.closing.None? && s.file.Some?
    ensures Inv(w, s.(opens := s.opens + 1, handles := s.handles[h := obj]))
  {
    var s' := s.(opens := s.opens + 1, handles := s.handles[h := obj]);
    Added(s.handles, h, obj);
    HandleThreads(w, s, h, obj);
    CoveredSame(s, s');
  }

  lemma HandleThreads(w: World, s: State, h: nat, obj: Object)
    requires Threads(w, s) && h !in s.handles && !SomeResetting(s)
    ensures Threads(w, s.(opens := s.opens + 1, handles := s.handles[h := obj]))
  {
    var s' := s.(opens := s.opens + 1, handles := s.handles[h := obj]);
    forall t | t in s.threads ensures ThreadOK(s', s.threads[t]) {
      assert ThreadOK(s, s.threads[t]);
    }
  }

  lemma SetUpKeeps(w: World, s: State, obj: Object)
    requires Inv(w, s) && Fits(w, s, obj) && s.cleaner.Resting?
    ensures var s1 := SetUp(s, obj);
      && Inv(w, s1) && s1.obj == Some(obj.content) && s1.fp == obj.validator && s1.file.Some?
      && s1.threads == s.threads && s1.handles == s.handles && s1.closing == s.closing
  {
    IdentifiedKeeps(w, s, obj);
    var s0 := Identified(s, obj);
    assert s0.cleaner == s.cleaner && s0.closing == s.closing && s0.threads == s.threads && s0.handles == s.handles;
    assert s0.obj == Some(obj.content) && s0.fp == obj.validator && s0.file.Some?;
    CreateKeeps(w, s0);
  }

  lemma OpenedKeeps(w: World, s: State, t: nat, h: nat, obj: Object)
    requires Inv(w, s) && h !in s.handles && !SomeResetting(s)
    requires s.obj == Some(obj.content) && s.fp == obj.validator && s.closing.None? && s.file.Some?
    requires t in s.threads && s.threads[t].OpenBody?
    ensures Inv(w, Leave(s.(opens := s.opens + 1, handles := s.handles[h := obj]), t))
  {
    HandleKeeps(w, s, h, obj);
    LeaveKeeps(w, s.(opens := s.opens + 1, handles := s.handles[h := obj]), t);
  }

  lemma CommittedKeeps(w: World, s: State, t: nat, obj: Object, outcome: OpenOutcome)
    requires Inv(w, s) && FreshHandle(s, outcome) && !SomeResetting(s)
    requires s.obj == Some(obj.content) && s.fp == obj.validator && s.closing.None? && s.file.Some?
    requires t in s.threads && s.threads[t].OpenBody?
    ensures Inv(w, Committed(s, t, obj, outcome))
  {
    if outcome.Opened? {
      OpenedKeeps(w, s, t, outcome.handle, obj);
    } else {
      LeaveKeeps(w, s, t);
    }
  }

  lemma CommitKeeps(w: World, s: State, t: nat, obj: Object, outcome: OpenOutcome)
    requires Inv(w, s) && Fits(w, s, obj) && t in s.threads && s.threads[t].OpenBody?
    requires FreshHandle(s, outcome) && s.closing.None? && !SomeResetting(s) && s.cleaner.Resting?
    ensures Inv(w, CommitOpen(s, t, obj, outcome))
  {
    if outcome.FileFailed? {
      LeaveKeeps(w, s, t);
    } else {
      SetUpKeeps(w, s, obj);
      CommittedKeeps(w, SetUp(s, obj), t, obj, outcome);
    }
  }

  /** The old version's scheduler is taken away and stopped outside the lock. */
  lemma DecideDetachKeeps(w: World, s: State, t: nat, obj: Object)
    requires Inv(w, s) && t in s.threads && s.threads[t] == OpenBody(obj)
    requires s.handles == map[] && s.dls.Some? && !s.grace && s.closing.None? && !SomeResetting(s)
    ensures Inv(w, Move(s.(dls := None), t, OpenResetting(obj, s.dls.value)))
  {
    var p := OpenResetting(obj, s.dls.value);
    LeaveKeeps(w, s, t);
    DetachKeeps(w, Leave(s, t), t, p);
    DetachShape(s, t, p);
  }

  lemma DetachShape(s: State, t: nat, p: Phase)
    requires t in s.threads
    ensures Enter(Leave(s, t).(dls := None), t, p) == Move(s.(dls := None), t, p)
  {
    assert (s.threads - {t})[t := p] == s.threads[t := p];
  }

  lemma DecideResetKeeps(w: World, s: State, t: nat, obj: Object, outcome: OpenOutcome)
    requires Inv(w, s) && t in s.threads && s.threads[t] == OpenBody(obj)
    requires s.handles == map[] && s.live == map[] && s.closing.None? && !SomeResetting(s)
    requires FreshHandle(s, outcome)
    ensures Inv(w, ResetAndCommit(s, t, obj, outcome))
  {
    if outcome.ResetFailed? {
      HalfResetKeeps(w, s, outcome.fileGone);
      LeaveKeeps(w, HalfReset(s, outcome.fileGone), t);
    } else {
      ClearedKeeps(w, s);
      CommitKeeps(w, Cleared(s), t, obj, outcome);
    }
  }

  lemma DecideOpenKeeps(w: World, s: State, t: nat, outcome: OpenOutcome)
    requires Inv(w, s) && DecideOpenStep(SAFE, s, t, outcome).Some?
    ensures Inv(w, DecideOpenStep(SAFE, s, t, outcome).value)
  {
    var obj := s.threads[t].obj;
    var s0 := s.(grace := false);
    assert Inv(w, s0) by {
      FdClosedKeeps(w, s, false, s.fdOpen);
      assert s0 == s.(fdOpen := s.fdOpen, grace := false);
    }
    assert s.handles == map[] <==> s.opens == 0;
    if s.opens > 0 && s.fp != obj.validator {
      LeaveKeeps(w, s0, t);
    } else if MustReset(s, obj.validator) && s.dls.Some? {
      DecideDetachKeeps(w, s0, t, obj);
    } else if MustReset(s, obj.validator) {
      DecideResetKeeps(w, s0, t, obj, outcome);
    } else {
      StillFits(w, s, t);
      CommitKeeps(w, s0, t, obj, outcome);
    }
  }

  /** Without a reset the cached bytes are those of the version being opened. */
  lemma StillFits(w: World, s: State, t: nat)
    requires Inv(w, s) && t in s.threads && s.threads[t].OpenBody?
    requires var v := s.threads[t].obj.validator;
      && !MustReset(s, v) && (s.opens > 0 ==> s.fp == v)
      && (VersionChange(s, v) ==> s.live == map[])
      && (s.opens > 0 && v.None? ==> s.obj == Some(s.threads[t].obj.content))
    ensures Fits(w, s.(grace := false), s.threads[t].obj)
  {
    var obj := s.threads[t].obj;
    if s.handles != map[] {
      var h :| h in s.handles;
      assert s.obj == Some(s.handles[h].content);
    }
    if s.file.Some? {
      forall b | b in s.rs ensures Holds(s, obj.content, b) {
        if obj.validator.Some? {
          assert Holds(s, w[s.fp.value], b);
        } else {
          assert Holds(s, s.obj.value, b);
        }
      }
    }
  }

  lemma ResumeOpenKeeps(w: World, s: State, t: nat, outcome: OpenOutcome)
    requires Inv(w, s) && ResumeOpenStep(SAFE, s, t, outcome).Some?
    ensures Inv(w, ResumeOpenStep(SAFE, s, t, outcome).value)
  {
    var OpenResetting(obj, g) := s.threads[t];
    assert ThreadOK(s, s.threads[t]);
    ClosedKeeps(w, s, g);
    var s1 := s.(closed := s.closed + {g});
    if outcome.ResetFailed? {
      HalfResetKeeps(w, s1, outcome.fileGone);
      LeaveKeeps(w, HalfReset(s1, outcome.fileGone), t);
    } else {
      ClearedKeeps(w, s1);
      ResumedKeeps(w, Cleared(s1), t, outcome);
    }
  }

  lemma ResumedKeeps(w: World, s: State, t: nat, outcome: OpenOutcome)
    requires Inv(w, s) && t in s.threads && s.threads[t].OpenResetting?
    requires s.handles == map[] && s.live == map[] && s.rs == {} && s.closing.None? && FreshHandle(s, outcome)
    ensures Inv(w, CommitOpen(s, t, s.threads[t].obj, outcome))
  {
    var obj := s.threads[t].obj;
    var s' := Enter(Leave(s, t), t, OpenBody(obj));
    BackToBody(w, s, t);
    BackShape(w, s, t);
    CommitKeeps(w, s', t, obj, outcome);
    CommitIgnoresPhase(s, s', t, obj, outcome);
  }

  lemma BackToBody(w: World, s: State, t: nat)
    requires Inv(w, s) && t in s.threads && s.threads[t].OpenResetting? && s.live == map[]
    ensures Inv(w, Enter(Leave(s, t), t, OpenBody(s.threads[t].obj)))
  {
    var s1, p := Leave(s, t), OpenBody(s.threads[t].obj);
    BackShape(w, s, t);
    LeaveKeeps(w, s, t);
    EnterKeeps(w, s1, t, p);
  }

  lemma BackShape(w: World, s: State, t: nat)
    requires Threads(w, s) && t in s.threads && s.threads[t].OpenResetting?
    ensures Known(w, s.threads[t].obj)
    ensures var s' := Enter(Leave(s, t), t, OpenBody(s.threads[t].obj));
      !SomeResetting(s') && s'.threads - {t} == s.threads - {t} && s' == s.(threads := s'.threads)
  {
    forall u | u in s.threads && u != t ensures !s.threads[u].OpenResetting? {
      assert Exclusive(s.threads[u], s.threads[t]);
    }
    var p := OpenBody(s.threads[t].obj);
    assert (s.threads - {t})[t := p] - {t} == s.threads - {t};
  }

  /** The open's own phase plays no part in what the commit leaves. */
  lemma CommitIgnoresPhase(s: State, s': State, t: nat, obj: Object, outcome: OpenOutcome)
    requires s' == s.(threads := s'.threads) && s.threads - {t} == s'.threads - {t}
    ensures CommitOpen(s, t, obj, outcome) == CommitOpen(s', t, obj, outcome)
  {
    SetUpIgnoresPhase(s, s', obj);
  }

  lemma SetUpIgnoresPhase(s: State, s': State, obj: Object)
    requires s' == s.(threads := s'.threads)
    ensures SetUp(s', obj) == SetUp(s, obj).(threads := s'.threads)
  {
    assert Identified(s', obj) == Identified(s, obj).(threads := s'.threads);
  }

  /***************************** Main theorems *******************************/

  lemma AskKeeps(w: World, s: State, a: Action)
    requires a.EnterRead? || a.CheckRange? || a.Ensured? || a.Queue?
    requires Inv(w, s) && ReaderStep(s, a).Some?
    ensures Inv(w, ReaderStep(s, a).value)
  {
    match a
    case EnterRead(t, h, off, len) => EnterReadKeeps(w, s, t, h, off, len);
    case CheckRange(t) => CheckRangeKeeps(w, s, t);
    case Ensured(t, ok) => EnsuredKeeps(w, s, t, ok);
    case Queue(t, ok) => EnsuredKeeps(w, s, t, ok);
  }

  lemma AnsweredKeeps(w: World, s: State, a: Action)
    requires a.Dispatch? || a.DispatchClosed? || a.FailWaiter?
    requires Inv(w, s) && ReaderStep(s, a).Some?
    ensures Inv(w, ReaderStep(s, a).value)
  {
    match a
    case Dispatch(t) => AnswerKeeps(w, s, t, a);
    case DispatchClosed(t) => AnswerKeeps(w, s, t, a);
    case FailWaiter(t) => AnswerKeeps(w, s, t, a);
  }

  lemma ReaderKeeps(w: World, s: State, a: Action)
    requires Inv(w, s) && OfReader(a) && ReaderStep(s, a).Some?
    ensures Inv(w, ReaderStep(s, a).value)
  {
    if a.ReadFile? {
      ReadFileKeeps(w, s, a.t);
    } else if a.LeaveRead? {
      LeaveKeeps(w, s, a.t);
    } else if a.EnterRead? || a.CheckRange? || a.Ensured? || a.Queue? {
      AskKeeps(w, s, a);
    } else {
      AnsweredKeeps(w, s, a);
    }
  }

  lemma OpenerKeeps(w: World, s: State, a: Action)
    requires Inv(w, s) && OfOpener(a) && OpenerStep(SAFE, w, s, a).Some?
    ensures Inv(w, OpenerStep(SAFE, w, s, a).value)
  {
    match a
    case EnterOpen(t, obj) => EnterOpenKeeps(w, s, t, obj);
    case DecideOpen(t, outcome) => DecideOpenKeeps(w, s, t, outcome);
    case ResumeOpen(t, outcome) => ResumeOpenKeeps(w, s, t, outcome);
    case EnterRelease(t, h) => EnterReleaseKeeps(w, s, t, h);
    case DoRelease(t, keep) => DoReleaseKeeps(w, s, t, keep);
    case FinishRelease(t) => FinishReleaseKeeps(w, s, t);
    case FireGrace => FireGraceKeeps(w, s);
    case FinishGrace => FinishGraceKeeps(w, s);
  }

  lemma BackgroundKeeps(w: World, s: State, a: Action)
    requires Inv(w, s) && !OfReader(a) && !OfOpener(a) && BackgroundStep(s, a).Some?
    ensures Inv(w, BackgroundStep(s, a).value)
  {
    match a
    case StartDownload(d, g, pos) => StartDownloadKeeps(w, s, d, g, pos);
    case WriteDownload(d, n) => WriteDownloadKeeps(w, s, d, n);
    case StopDownload(d) => StopDownloadKeeps(w, s, d);
    case StartReset => StartResetKeeps(w, s);
    case FinishReset(r) => FinishResetKeeps(w, s, r);
    case DropUnused => DropUnusedKeeps(w, s);
  }

  lemma StepKeeps(w: World, s: State, a: Action)
    requires Inv(w, s) && Step(SAFE, w, s, a).Some?
    ensures Inv(w, Step(SAFE, w, s, a).value)
  {
    if OfReader(a) {
      ReaderKeeps(w, s, a);
    } else if OfOpener(a) {
      OpenerKeeps(w, s, a);
    } else {
      BackgroundKeeps(w, s, a);
    }
  }

  lemma {:induction false} RunKeeps(w: World, s: State, acts: seq<Action>)
    requires Inv(w, s) && Run(SAFE, w, s, acts).Some?
    ensures Inv(w, Run(SAFE, w, s, acts).value)
    decreases |acts|
  {
    if acts != [] {
      StepKeeps(w, s, acts[0]);
      RunKeeps(w, Step(SAFE, w, s, acts[0]).value, acts[1..]);
    }
  }

  /** On every schedule a successful read returns the bytes of the version its reader opened. */
  lemma TransparentWhenSafe()
    ensures Transparent(SAFE)
  {
    forall w, s, acts | Init(w, s) && Run(SAFE, w, s, acts).Some?
      ensures ReadsCorrect(Run(SAFE, w, s, acts).value)
    {
      InitInv(w, s);
      RunKeeps(w, s, acts);
      ReadsAreCorrect(w, Run(SAFE, w, s, acts).value);
    }
  }

  lemma ReadsAreCorrect(w: World, s: State)
    requires Inv(w, s)
    ensures ReadsCorrect(s)
  {
    forall t | t in s.threads && s.threads[t].ReadDone? && s.threads[t].out.Some?
      ensures s.threads[t].handle in s.handles
      ensures Gets(s.threads[t].out, s.handles[s.threads[t].handle].content, s.threads[t].off, s.threads[t].len)
    {
      assert ThreadOK(s, s.threads[t]);
    }
  }

  /** No caller is inside the item while the cleaner resets it. */
  lemma ResetExcludesAccess(w: World, s0: State, acts: seq<Action>)
    requires Init(w, s0) && Run(SAFE, w, s0, acts).Some?
    ensures var s := Run(SAFE, w, s0, acts).value; s.beingReset ==> s.pending == 0 && s.opens > 0
  {
    InitInv(w, s0);
    RunKeeps(w, s0, acts);
    var s := Run(SAFE, w, s0, acts).value;
    if s.beingReset {
      var h :| h in s.handles;
      Removed(s.handles, h);
    }
  }

  /** A range told to be present stays cached until its reader has read the file. */
  lemma GrantedStaysCached(w: World, s0: State, acts: seq<Action>, t: nat)
    requires Init(w, s0) && Run(SAFE, w, s0, acts).Some?
    ensures var s := Run(SAFE, w, s0, acts).value;
      t in s.threads && (s.threads[t].Granted? || s.threads[t].Ensuring?) ==>
        && Cached(s, s.threads[t].off, s.threads[t].len)
        && s.threads[t].handle in s.handles && s.obj == Some(s.handles[s.threads[t].handle].content)
  {
    InitInv(w, s0);
    RunKeeps(w, s0, acts);
    var s := Run(SAFE, w, s0, acts).value;
    if t in s.threads {
      assert ThreadOK(s, s.threads[t]);
    }
  }

  /** A scheduler is never closed while a read of it waits, so no waiter is told nil by a closing scheduler. */
  lemma NoWaiterClosed(w: World, s0: State, acts: seq<Action>, t: nat)
    requires Init(w, s0) && Run(SAFE, w, s0, acts).Some?
    ensures AnswerStep(Run(SAFE, w, s0, acts).value, t, DispatchClosed(t)).None?
  {
    InitInv(w, s0);
    RunKeeps(w, s0, acts);
    var s := Run(SAFE, w, s0, acts).value;
    if t in s.threads {
      assert ThreadOK(s, s.threads[t]);
    }
  }

  /** Everything between a live downloader's start and its offset is cached. */
  lemma DownloadersCovered(w: World, s0: State, acts: seq<Action>, d: nat, b: int)
    requires Init(w, s0) && Run(SAFE, w, s0, acts).Some?
    ensures var s := Run(SAFE, w, s0, acts).value;
      d in s.live && s.live[d].start <= b < s.live[d].offset ==>
        b in s.rs && s.obj == Some(s.live[d].src)
  {
    InitInv(w, s0);
    RunKeeps(w, s0, acts);
    var s := Run(SAFE, w, s0, acts).value;
    if d in s.live {
      assert Passed(s, s.live[d]);
    }
  }

  /** Under a validator, only that version's bytes are cached, and none beyond its size. */
  lemma VersionsIsolated(w: World, s0: State, acts: seq<Action>, b: int)
    requires Init(w, s0) && Run(SAFE, w, s0, acts).Some?
    ensures var s := Run(SAFE, w, s0, acts).value;
      b in s.rs ==>
        && 0 <= b < s.size
        && (s.fp.Some? ==> s.fp.value in w && (s.file.Some? ==> Holds(s, w[s.fp.value], b)))
  {
    InitInv(w, s0);
    RunKeeps(w, s0, acts);
  }

  /**
   When nobody has the item open and either side lacks a validator, an open that
   succeeds starts from an empty cache, whatever the assumptions and the state.
   */
  lemma UnvalidatedBytesDoNotSurvive(cfg: Config, s: State, t: nat, h: nat)
    requires t in s.threads && s.threads[t].OpenBody? && s.opens == 0
    requires s.fp.None? || s.threads[t].obj.validator.None?
    ensures var s' := DecideOpenStep(cfg, s, t, Opened(h));
      s'.Some? && t !in s'.value.threads ==> s'.value.rs == {}
  {
    EmptyStaysEmpty(Cleared(s.(grace := false)), t, s.threads[t].obj, Opened(h));
    if s.rs == {} {
      EmptyStaysEmpty(s.(grace := false), t, s.threads[t].obj, Opened(h));
    }
  }

  /** The same for an open that had to stop the old scheduler first. */
  lemma ResumedOpenStartsEmpty(cfg: Config, s: State, t: nat, outcome: OpenOutcome)
    requires ResumeOpenStep(cfg, s, t, outcome).Some?
    ensures !outcome.ResetFailed? ==> ResumeOpenStep(cfg, s, t, outcome).value.rs == {}
  {
    EmptyStaysEmpty(Cleared(s.(closed := s.closed + {s.threads[t].group})), t, s.threads[t].obj, outcome);
  }

  lemma EmptyStaysEmpty(s: State, t: nat, obj: Object, outcome: OpenOutcome)
    requires s.rs == {}
    ensures CommitOpen(s, t, obj, outcome).rs == {}
  {
    assert Below({}, |obj.content|) == {};
  }

  /** The file write of the protocol is the one that `Item.WriteAtNoOverwrite` performs. */
  lemma WriteMatchesItem(rs: seq<Ranges.Range>, data: Bytes, src: Bytes, lo: nat, b: Bytes, n: nat,
                         rs': seq<Ranges.Range>, data': Bytes)
    requires n <= |b| && lo + |b| <= |src| && b == src[lo..lo + |b|]
    requires Item.WroteNoOverwrite(rs, data, b, lo, n, rs', data')
    ensures Ranges.Bytes(rs') == Ranges.Bytes(rs) + Span(lo, lo + n)
    ensures forall x :: Item.At(data', x) == Item.At(WriteMissing(data, Ranges.Bytes(rs), src, lo, lo + n), x)
  {
    forall x
      ensures x in Ranges.Bytes(rs') <==> x in Ranges.Bytes(rs) || lo <= x < lo + n
      ensures Item.At(data', x) == Item.At(WriteMissing(data, Ranges.Bytes(rs), src, lo, lo + n), x)
    {
      Ranges.BytesCovers(rs', x);
      Ranges.BytesCovers(rs, x);
      if lo <= x < lo + n {
        assert b[x - lo] == src[x];
      }
    }
  }
}
