/**
 One cache item under every interleaving: opens, reads, releases, downloads, the
 grace timer and one cleaner, each step being one critical section of the item
 lock or one event of the scheduler.

 The state is a value and `Step` answers the state after one action, or None when
 the action is not possible.  `Run` folds a whole schedule.  What the system may
 do is narrowed by three assumptions in `Config`; `CacheProtocolProofs` shows that
 reads return the origin's bytes on every schedule exactly when all three hold.
 */
module CacheProtocol {
  import opened Common
  import opened Version
  import Ranges

  type Bytes = seq<byte>

  /** An origin object as an open presents it: its validator and its bytes. */
  datatype Object = Object(validator: Option<Fingerprint>, content: Bytes)

  /** What each validator stands for at the origin. */
  type World = map<Fingerprint, Bytes>

  datatype Config = Config(
    lonelyReset: bool,      // no open decides anything while another is inside resetLocked's unlocked window
    deadStreams: bool,      // no download of the old version is live when the version changes
    sameUnvalidated: bool)  // an unvalidated open that joins open readers presents the same bytes

  /** A live downloader: the stream it opened and how far it has written it. */
  datatype Download = Download(group: nat, src: Bytes, start: int, offset: int)

  /** Where a caller is; every caller listed here is counted in pendingAccesses. */
  datatype Phase =
    | OpenBody(obj: Object)
    | OpenResetting(obj: Object, group: nat)
    | ReleaseBody(handle: nat)
    | ReleaseClosing(group: nat)
    | ReadBegin(handle: nat, off: int, len: nat)
    | Ensuring(handle: nat, off: int, len: nat, group: nat)
    | Requesting(handle: nat, off: int, len: nat, group: nat)
    | Waiting(handle: nat, off: int, len: nat, group: nat)
    | Granted(handle: nat, off: int, len: nat)
    | ReadDone(handle: nat, off: int, len: nat, out: Option<Bytes>)
  {
    predicate IsRead() {
      ReadBegin? || Ensuring? || Requesting? || Waiting? || Granted? || ReadDone?
    }
  }

  datatype Cleaner = Resting | Stopping(group: Option<nat>)

  datatype State = State(
    file: Option<Bytes>,        // the data file, if it exists
    fdOpen: bool,               // item.fd != nil
    rs: set<int>,               // item.info.Rs as a set of bytes
    size: int,                  // item.info.Size
    fp: Option<Fingerprint>,    // item.info.Fingerprint
    obj: Option<Bytes>,         // what item.object reads from
    opens: int,
    grace: bool,                // graceTimer != nil
    closing: Option<nat>,       // closeAfterGrace is stopping this group
    pending: int,               // pendingAccesses
    beingReset: bool,
    dls: Option<nat>,           // item.downloaders
    groups: nat,                // scheduler instances made so far
    closed: set<nat>,           // ... and those whose Close has returned
    live: map<nat, Download>,
    handles: map<nat, Object>,  // open readers
    threads: map<nat, Phase>,
    cleaner: Cleaner)

  /** How an open ends; a reset that fails may have closed the descriptor only, or removed the data file too. */
  datatype OpenOutcome = Opened(handle: nat) | SaveFailed | FileFailed | ResetFailed(fileGone: bool)

  datatype ResetOutcome =
    | Reset
    | CloseFailed
    | NotReopened(noSpace: bool)
    | NotSized(noSpace: bool)
    | NotSaved(noSpace: bool)

  datatype Action =
    | EnterOpen(t: nat, obj: Object)
    | DecideOpen(t: nat, outcome: OpenOutcome)
    | ResumeOpen(t: nat, outcome: OpenOutcome)
    | EnterRelease(t: nat, handle: nat)
    | DoRelease(t: nat, keepHandle: bool)
    | FinishRelease(t: nat)
    | FireGrace
    | FinishGrace
    | EnterRead(t: nat, handle: nat, off: int, len: nat)
    | CheckRange(t: nat)
    | Ensured(t: nat, ok: bool)
    | Queue(t: nat, ok: bool)
    | Dispatch(t: nat)
    | DispatchClosed(t: nat)
    | FailWaiter(t: nat)
    | ReadFile(t: nat)
    | LeaveRead(t: nat)
    | StartDownload(d: nat, group: nat, pos: int)
    | WriteDownload(d: nat, n: nat)
    | StopDownload(d: nat)
    | StartReset
    | FinishReset(result: ResetOutcome)
    | DropUnused

  /******************************* Helpers ***********************************/

  function Zeros(n: nat): Bytes {
    seq(n, _ => 0)
  }

  /** Truncate: cut or extend with zeros. */
  function Resize(f: Bytes, n: nat): (r: Bytes)
    ensures |r| == n
    ensures forall i :: 0 <= i < n ==> r[i] == if i < |f| then f[i] else 0
  {
    if n <= |f| then f[..n] else f + Zeros(n - |f|)
  }

  /** The bytes a positional read of `len` bytes at `off` returns. */
  function Slice(b: Bytes, off: int, len: nat): Bytes {
    if off < 0 || off >= |b| then [] else b[off..Ranges.Min(off + len, |b|)]
  }

  /** The request, clipped to the object, is cached. */
  predicate Cached(s: State, off: int, len: nat) {
    forall b :: off <= b < Ranges.Min(off + len, s.size) ==> b in s.rs
  }

  predicate NoneLive(s: State, g: nat) {
    forall d | d in s.live :: s.live[d].group != g
  }

  predicate SomeResetting(s: State) {
    exists t | t in s.threads :: s.threads[t].OpenResetting?
  }

  predicate SomeOpening(s: State) {
    exists t | t in s.threads :: s.threads[t].OpenResetting? || s.threads[t].OpenBody?
  }

  predicate Used(s: State, h: nat) {
    exists t | t in s.threads ::
      (s.threads[t].IsRead() || s.threads[t].ReleaseBody?) && s.threads[t].handle == h
  }

  predicate Asked(s: State, g: nat) {
    exists t | t in s.threads ::
      (s.threads[t].Ensuring? || s.threads[t].Requesting? || s.threads[t].Waiting?) && s.threads[t].group == g
  }

  function Enter(s: State, t: nat, p: Phase): State {
    s.(pending := s.pending + 1, threads := s.threads[t := p])
  }

  function Move(s: State, t: nat, p: Phase): State {
    s.(threads := s.threads[t := p])
  }

  function Leave(s: State, t: nat): State {
    s.(pending := s.pending - 1, threads := s.threads - {t})
  }

  function CreateDownloaders(s: State): State {
    if s.dls.Some? || s.obj.None? || s.size <= 0 then s
    else s.(dls := Some(s.groups), groups := s.groups + 1)
  }

  /** The end of resetLocked: no file, no ranges, no identity. */
  function Cleared(s: State): State {
    s.(fdOpen := false, file := None, rs := {}, size := 0, fp := None, obj := None)
  }

  /** resetLocked gave up: the item still claims its ranges and its version. */
  function HalfReset(s: State, fileGone: bool): State {
    s.(fdOpen := false, file := if fileGone then None else s.file)
  }

  /** openLocked's answer to "may the cached bytes be kept?" */
  predicate MustReset(s: State, v: Option<Fingerprint>) {
    s.opens == 0 && s.rs != {} && (v.None? || s.fp.None? || s.fp != v)
  }

  predicate VersionChange(s: State, v: Option<Fingerprint>) {
    s.opens == 0 && (v.None? || s.fp != v)
  }

  function Below(rs: set<int>, n: nat): set<int> {
    set b | b in rs && 0 <= b < n
  }

  /** openLocked opens and sizes the data file, then takes on the identity of `obj`. */
  function Identified(s: State, obj: Object): State {
    var rs0 := if !s.fdOpen && s.file.None? then {} else s.rs;
    var f := if s.file.None? then [] else s.file.value;
    var n := |obj.content|;
    s.(fdOpen := true, file := Some(Resize(f, n)), rs := if |f| != n then Below(rs0, n) else rs0,
       obj := Some(obj.content), size := n, fp := obj.validator)
  }

  function SetUp(s: State, obj: Object): State {
    CreateDownloaders(Identified(s, obj))
  }

  /** The end of openLocked once the item has taken on the identity of `obj`. */
  function Committed(s: State, t: nat, obj: Object, outcome: OpenOutcome): State {
    if outcome.Opened? then Leave(s.(opens := s.opens + 1, handles := s.handles[outcome.handle := obj]), t)
    else Leave(s, t)
  }

  /** openLocked from the opening of the data file to its return. */
  function CommitOpen(s: State, t: nat, obj: Object, outcome: OpenOutcome): State {
    if outcome.FileFailed? then Leave(s, t) else Committed(SetUp(s, obj), t, obj, outcome)
  }

  predicate FreshHandle(s: State, outcome: OpenOutcome) {
    outcome.Opened? ==> outcome.handle !in s.handles
  }

  function Span(lo: int, hi: int): (r: set<int>)
    ensures forall b :: b in r <==> lo <= b < hi
  {
    var r := Ranges.Range(lo, hi - lo);
    assert forall b :: r.Has(b) <==> lo <= b < hi;
    Ranges.Span(r)
  }

  /** The file after a download wrote `src[lo..hi]` without touching cached bytes. */
  function WriteMissing(f: Bytes, rs: set<int>, src: Bytes, lo: nat, hi: nat): (r: Bytes)
    requires lo <= hi <= |src|
    ensures |r| == Ranges.Max(|f|, hi)
  {
    seq(Ranges.Max(|f|, hi), i requires 0 <= i < Ranges.Max(|f|, hi) =>
      if lo <= i < hi && i !in rs then src[i] else if i < |f| then f[i] else 0)
  }

  /********************************* Opens ***********************************/

  function EnterOpenStep(w: World, s: State, t: nat, obj: Object): Option<State> {
    // The origin's contract: a validator identifies the bytes.
    if t in s.threads || s.beingReset
       || (obj.validator.Some? && (obj.validator.value !in w || w[obj.validator.value] != obj.content)) then None
    else Some(Enter(s, t, OpenBody(obj)))
  }

  function DecideOpenStep(cfg: Config, s: State, t: nat, outcome: OpenOutcome): Option<State> {
    if t !in s.threads || !s.threads[t].OpenBody? || s.closing.Some? || !FreshHandle(s, outcome)
       || (cfg.lonelyReset && SomeResetting(s)) then None
    else
      var obj := s.threads[t].obj;
      var s0 := s.(grace := false);
      if s.opens > 0 && s.fp != obj.validator then Some(Leave(s0, t))
      else if MustReset(s, obj.validator) && s.dls.Some? then
        Some(Move(s0.(dls := None), t, OpenResetting(obj, s.dls.value)))
      else if (cfg.deadStreams && VersionChange(s, obj.validator) && s.live != map[])
              || (cfg.sameUnvalidated && s.opens > 0 && obj.validator.None? && s.obj != Some(obj.content)) then None
      else if MustReset(s, obj.validator) then Some(ResetAndCommit(s0, t, obj, outcome))
      else if outcome.ResetFailed? then None
      else Some(CommitOpen(s0, t, obj, outcome))
  }

  /** resetLocked, and the rest of the open if it worked. */
  function ResetAndCommit(s: State, t: nat, obj: Object, outcome: OpenOutcome): State {
    if outcome.ResetFailed? then Leave(HalfReset(s, outcome.fileGone), t)
    else CommitOpen(Cleared(s), t, obj, outcome)
  }

  function ResumeOpenStep(cfg: Config, s: State, t: nat, outcome: OpenOutcome): Option<State> {
    if t !in s.threads || !s.threads[t].OpenResetting? || !FreshHandle(s, outcome)
       || !NoneLive(s, s.threads[t].group)
       || (cfg.deadStreams && s.live != map[]) then None
    else Some(ResetAndCommit(s.(closed := s.closed + {s.threads[t].group}), t, s.threads[t].obj, outcome))
  }

  /******************************* Releases **********************************/

  function EnterReleaseStep(s: State, t: nat, h: nat): Option<State> {
    // A reader is not read from and not closed again once its release has begun.
    if t in s.threads || s.beingReset || h !in s.handles || Used(s, h) then None
    else Some(Enter(s, t, ReleaseBody(h)))
  }

  function DoReleaseStep(s: State, t: nat, keepHandle: bool): Option<State> {
    if t !in s.threads || !s.threads[t].ReleaseBody? then None
    else
      var s0 := s.(opens := s.opens - 1, handles := s.handles - {s.threads[t].handle});
      if s0.opens > 0 then Some(Leave(s0, t))
      else if keepHandle then Some(Leave(s0.(grace := true), t))
      else if s.dls.None? then Some(Leave(s0.(fdOpen := false), t))
      else Some(Move(s0.(dls := None), t, ReleaseClosing(s.dls.value)))
  }

  function FinishReleaseStep(s: State, t: nat): Option<State> {
    if t !in s.threads || !s.threads[t].ReleaseClosing? || !NoneLive(s, s.threads[t].group) then None
    else Some(Leave(s.(fdOpen := false, closed := s.closed + {s.threads[t].group}), t))
  }

  function FireGraceStep(s: State): Option<State> {
    if !s.grace || s.opens > 0 || s.closing.Some? then None
    else if s.dls.None? then Some(s.(grace := false, fdOpen := false))
    else Some(s.(grace := false, dls := None, closing := s.dls))
  }

  function FinishGraceStep(s: State): Option<State> {
    if s.closing.None? || !NoneLive(s, s.closing.value) then None
    else Some(s.(fdOpen := false, closing := None, closed := s.closed + {s.closing.value}))
  }

  /********************************* Reads ***********************************/

  function EnterReadStep(s: State, t: nat, h: nat, off: int, len: nat): Option<State> {
    if t in s.threads || s.beingReset || h !in s.handles
       || (exists u | u in s.threads :: s.threads[u] == ReleaseBody(h)) then None
    else Some(Enter(s, t, ReadBegin(h, off, len)))
  }

  function CheckRangeStep(s: State, t: nat): Option<State> {
    if t !in s.threads || !s.threads[t].ReadBegin? then None
    else
      var ReadBegin(h, off, len) := s.threads[t];
      if !s.fdOpen then Some(Move(s, t, ReadDone(h, off, len, None)))
      else if off < 0 then Some(Move(s, t, ReadDone(h, off, len, Some([]))))
      else if Cached(s, off, len) then
        Some(Move(s, t, if s.dls.None? then Granted(h, off, len) else Ensuring(h, off, len, s.dls.value)))
      else
        var s1 := CreateDownloaders(s);
        Some(Move(s1, t, if s1.dls.None? then ReadDone(h, off, len, None)
                         else Requesting(h, off, len, s1.dls.value)))
  }

  function EnsuredStep(s: State, t: nat, ok: bool): Option<State> {
    if t !in s.threads || !s.threads[t].Ensuring? then None
    else
      var Ensuring(h, off, len, g) := s.threads[t];
      Some(Move(s, t, if ok then Granted(h, off, len) else ReadDone(h, off, len, None)))
  }

  function QueueStep(s: State, t: nat, ok: bool): Option<State> {
    if t !in s.threads || !s.threads[t].Requesting? then None
    else
      var Requesting(h, off, len, g) := s.threads[t];
      Some(Move(s, t, if ok then Waiting(h, off, len, g) else ReadDone(h, off, len, None)))
  }

  /** A waiter is answered nil when its range is there, when its scheduler closed, or with an error. */
  function AnswerStep(s: State, t: nat, a: Action): Option<State> {
    if t !in s.threads || !s.threads[t].Waiting? then None
    else
      var Waiting(h, off, len, g) := s.threads[t];
      if a.FailWaiter? then Some(Move(s, t, ReadDone(h, off, len, None)))
      else if (a.Dispatch? && Cached(s, off, len)) || (a.DispatchClosed? && g in s.closed) then
        Some(Move(s, t, Granted(h, off, len)))
      else None
  }

  function ReadFileStep(s: State, t: nat): Option<State> {
    if t !in s.threads || !s.threads[t].Granted? then None
    else
      var Granted(h, off, len) := s.threads[t];
      Some(Move(s, t, ReadDone(h, off, len,
        if s.fdOpen && s.file.Some? then Some(Slice(s.file.value, off, len)) else None)))
  }

  function LeaveReadStep(s: State, t: nat): Option<State> {
    if t !in s.threads || !s.threads[t].ReadDone? then None else Some(Leave(s, t))
  }

  /******************************* Downloads *********************************/

  function StartDownloadStep(s: State, d: nat, g: nat, pos: int): Option<State> {
    // The scheduler starts a download only for a reader that called it or waits in it.
    if d in s.live || !Asked(s, g) || s.obj.None? || !(0 <= pos < |s.obj.value|) then None
    else Some(s.(live := s.live[d := Download(g, s.obj.value, pos, pos)]))
  }

  function WriteDownloadStep(s: State, d: nat, n: nat): Option<State> {
    if d !in s.live || !s.fdOpen || s.file.None? then None
    else
      var dl := s.live[d];
      if !(0 <= dl.offset <= dl.offset + n <= |dl.src|) then None
      else
        var hi := dl.offset + n;
        Some(s.(file := Some(WriteMissing(s.file.value, s.rs, dl.src, dl.offset, hi)),
                rs := s.rs + Span(dl.offset, hi),
                live := s.live[d := dl.(offset := hi)]))
  }

  function StopDownloadStep(s: State, d: nat): Option<State> {
    if d !in s.live then None else Some(s.(live := s.live - {d}))
  }

  /******************************** Cleaner **********************************/

  function StartResetStep(s: State): Option<State> {
    if s.cleaner.Stopping? || (s.opens == 0 && !s.grace) || s.grace || s.pending > 0
       || (s.rs == {} && !s.beingReset) then None
    else Some(s.(beingReset := true, dls := None, cleaner := Stopping(s.dls)))
  }

  function FinishResetStep(s: State, outcome: ResetOutcome): Option<State> {
    if s.cleaner.Resting? || (s.cleaner.group.Some? && !NoneLive(s, s.cleaner.group.value))
       || (outcome.CloseFailed? && !s.fdOpen) then None
    else
      var s0 := s.(cleaner := Resting,
                   closed := s.closed + if s.cleaner.group.Some? then {s.cleaner.group.value} else {});
      var size := Ranges.Max(s.size, 0);
      match outcome
      case CloseFailed => Some(s0.(fdOpen := false, beingReset := false))
      case NotReopened(full) => Some(s0.(fdOpen := false, file := None, rs := {}, beingReset := full))
      case NotSized(full) => Some(s0.(fdOpen := false, file := Some([]), rs := {}, beingReset := full))
      case NotSaved(full) => Some(s0.(fdOpen := true, file := Some(Zeros(size)), rs := {}, beingReset := full))
      case Reset => Some(CreateDownloaders(s0.(fdOpen := true, file := Some(Zeros(size)), rs := {},
                                               beingReset := false)))
  }

  /** The reset of an unused item, taken as one step and not racing with an open. */
  function DropUnusedStep(s: State): Option<State> {
    if s.cleaner.Stopping? || s.opens != 0 || s.grace || SomeOpening(s) || s.live != map[] then None
    else Some(Cleared(s.(dls := None, closed := s.closed + if s.dls.Some? then {s.dls.value} else {})))
  }

  /********************************** Runs ***********************************/

  predicate OfReader(a: Action) {
    a.EnterRead? || a.CheckRange? || a.Ensured? || a.Queue? || a.Dispatch? || a.DispatchClosed? || a.FailWaiter?
    || a.ReadFile? || a.LeaveRead?
  }

  predicate OfOpener(a: Action) {
    a.EnterOpen? || a.DecideOpen? || a.ResumeOpen? || a.EnterRelease? || a.DoRelease? || a.FinishRelease?
    || a.FireGrace? || a.FinishGrace?
  }

  function ReaderStep(s: State, a: Action): Option<State>
    requires OfReader(a)
  {
    match a
    case EnterRead(t, h, off, len) => EnterReadStep(s, t, h, off, len)
    case CheckRange(t) => CheckRangeStep(s, t)
    case Ensured(t, ok) => EnsuredStep(s, t, ok)
    case Queue(t, ok) => QueueStep(s, t, ok)
    case ReadFile(t) => ReadFileStep(s, t)
    case LeaveRead(t) => LeaveReadStep(s, t)
    case Dispatch(t) => AnswerStep(s, t, a)
    case DispatchClosed(t) => AnswerStep(s, t, a)
    case FailWaiter(t) => AnswerStep(s, t, a)
  }

  function OpenerStep(cfg: Config, w: World, s: State, a: Action): Option<State>
    requires OfOpener(a)
  {
    match a
    case EnterOpen(t, obj) => EnterOpenStep(w, s, t, obj)
    case DecideOpen(t, outcome) => DecideOpenStep(cfg, s, t, outcome)
    case ResumeOpen(t, outcome) => ResumeOpenStep(cfg, s, t, outcome)
    case EnterRelease(t, h) => EnterReleaseStep(s, t, h)
    case DoRelease(t, keep) => DoReleaseStep(s, t, keep)
    case FinishRelease(t) => FinishReleaseStep(s, t)
    case FireGrace => FireGraceStep(s)
    case FinishGrace => FinishGraceStep(s)
  }

  function BackgroundStep(s: State, a: Action): Option<State>
    requires !OfReader(a) && !OfOpener(a)
  {
    match a
    case StartDownload(d, g, pos) => StartDownloadStep(s, d, g, pos)
    case WriteDownload(d, n) => WriteDownloadStep(s, d, n)
    case StopDownload(d) => StopDownloadStep(s, d)
    case StartReset => StartResetStep(s)
    case FinishReset(outcome) => FinishResetStep(s, outcome)
    case DropUnused => DropUnusedStep(s)
  }

  function Step(cfg: Config, w: World, s: State, a: Action): Option<State> {
    if OfReader(a) then ReaderStep(s, a)
    else if OfOpener(a) then OpenerStep(cfg, w, s, a)
    else BackgroundStep(s, a)
  }

  /** The state after a whole schedule, or None when one of its actions was not possible. */
  function Run(cfg: Config, w: World, s: State, acts: seq<Action>): Option<State>
    decreases |acts|
  {
    if acts == [] then Some(s)
    else
      match Step(cfg, w, s, acts[0])
      case None => None
      case Some(s') => Run(cfg, w, s', acts[1..])
  }

  /** A cold item: nothing open, and what is on disk belongs to the version it names. */
  ghost predicate Init(w: World, s: State) {
    && s.opens == 0 && s.pending == 0 && s.groups == 0
    && !s.fdOpen && !s.grace && s.closing.None? && !s.beingReset
    && s.obj.None? && s.dls.None? && s.cleaner.Resting? && s.closed == {}
    && s.live == map[] && s.handles == map[] && s.threads == map[]
    && (forall b :: b in s.rs ==> 0 <= b < s.size)
    && (s.file.Some? ==> forall b :: b in s.rs ==> b < |s.file.value|)
    && (s.fp.Some? && s.rs != {} ==> s.fp.value in w)
    && (s.fp.Some? && s.file.Some? ==>
          forall b :: b in s.rs ==> b < |w[s.fp.value]| && s.file.value[b] == w[s.fp.value][b])
  }

  /** The answer is the bytes of `content` from `off` on, `len` of them or as many as there are. */
  ghost predicate Gets(out: Option<Bytes>, content: Bytes, off: int, len: nat) {
    && out.Some?
    && |out.value| == (if 0 <= off < |content| then Ranges.Min(len, |content| - off) else 0)
    && forall i :: 0 <= i < |out.value| ==> out.value[i] == content[off + i]
  }

  /** Every read that ended without error, or with end-of-file, returned the origin's bytes. */
  ghost predicate ReadsCorrect(s: State) {
    forall t :: t in s.threads && s.threads[t].ReadDone? && s.threads[t].out.Some? ==>
      && s.threads[t].handle in s.handles
      && Gets(s.threads[t].out, s.handles[s.threads[t].handle].content, s.threads[t].off, s.threads[t].len)
  }

  /** Cache transparency over all worlds, starting points and schedules. */
  ghost predicate Transparent(cfg: Config) {
    forall w, s, acts :: Init(w, s) && Run(cfg, w, s, acts).Some? ==> ReadsCorrect(Run(cfg, w, s, acts).value)
  }
}
