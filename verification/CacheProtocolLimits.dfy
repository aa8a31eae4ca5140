/**
 Why each assumption is needed: for each one a concrete schedule on which a read
 ends without error and returns bytes that are not its object's.  Together with
 the safety proof this gives the exact condition for cache transparency.
 */
module CacheProtocolLimits {
  import opened Common
  import opened Version
  import opened CacheProtocol
  import CacheProtocolProofs

  const V1 := Fingerprint(1, "one", None)
  const V2 := Fingerprint(1, "two", None)
  const OldObject := Object(Some(V1), [5])
  const NewObject := Object(Some(V2), [7])
  const ORIGIN: World := map[V1 := [5], V2 := [7]]

  /** A closed item with the given cache contents. */
  function Cold(file: Option<Bytes>, rs: set<int>, fp: Option<Fingerprint>): State {
    State(file, false, rs, 1, fp, None, 0, false, None, 0, false, None, 0, {}, map[], map[], map[], Resting)
  }

  /** Some schedule leads from `s` to `s'`. */
  ghost predicate Reach(cfg: Config, w: World, s: State, s': State) {
    exists acts :: Run(cfg, w, s, acts) == Some(s')
  }

  lemma {:induction false} RunConcat(cfg: Config, w: World, s: State, a: seq<Action>, b: seq<Action>)
    requires Run(cfg, w, s, a).Some?
    ensures Run(cfg, w, s, a + b) == Run(cfg, w, Run(cfg, w, s, a).value, b)
    decreases |a|
  {
    if a == [] {
      assert a + b == b;
    } else {
      assert (a + b)[1..] == a[1..] + b;
      RunConcat(cfg, w, Step(cfg, w, s, a[0]).value, a[1..], b);
    }
  }

  lemma Then(cfg: Config, w: World, s: State, m: State, s': State)
    requires Reach(cfg, w, s, m) && Reach(cfg, w, m, s')
    ensures Reach(cfg, w, s, s')
  {
    var a :| Run(cfg, w, s, a) == Some(m);
    var b :| Run(cfg, w, m, b) == Some(s');
    RunConcat(cfg, w, s, a, b);
    assert Run(cfg, w, s, a + b) == Some(s');
  }

  lemma One(cfg: Config, w: World, s: State, a: Action, s': State)
    requires Step(cfg, w, s, a) == Some(s')
    ensures Reach(cfg, w, s, s')
  {
    assert Run(cfg, w, s', []) == Some(s');
    assert [a][1..] == [];
    assert Run(cfg, w, s, [a]) == Some(s');
  }

  lemma Three(cfg: Config, w: World, s0: State, a1: Action, s1: State, a2: Action, s2: State, a3: Action, s3: State)
    requires Step(cfg, w, s0, a1) == Some(s1)
    requires Step(cfg, w, s1, a2) == Some(s2)
    requires Step(cfg, w, s2, a3) == Some(s3)
    ensures Reach(cfg, w, s0, s3)
  {
    One(cfg, w, s0, a1, s1);
    One(cfg, w, s1, a2, s2);
    One(cfg, w, s2, a3, s3);
    Then(cfg, w, s0, s1, s2);
    Then(cfg, w, s0, s2, s3);
  }

  /** A wrong read that some schedule reaches refutes transparency. */
  lemma Refutes(cfg: Config, s0: State, s: State)
    requires Init(ORIGIN, s0) && Reach(cfg, ORIGIN, s0, s) && !ReadsCorrect(s)
    ensures !Transparent(cfg)
  {
    var acts :| Run(cfg, ORIGIN, s0, acts) == Some(s);
    assert Run(cfg, ORIGIN, s0, acts).Some?;
  }

  /***************** A version reset raced by another open *******************/

  function OldOnDisk(): State {
    Cold(Some([5]), {0}, Some(V1))
  }

  /** Version one was open a moment ago: its scheduler and file are kept for the grace period. */
  function InGrace(): State {
    OldOnDisk().(fdOpen := true, obj := Some([5]), grace := true, dls := Some(0), groups := 1)
  }

  lemma WarmUp(cfg: Config)
    ensures Reach(cfg, ORIGIN, OldOnDisk(), InGrace())
  {
    var s0 := OldOnDisk();
    var s1 := s0.(pending := 1, threads := map[0 := OpenBody(OldObject)]);
    assert Resize([5], 1) == [5];
    var s2 := InGrace().(grace := false, opens := 1, handles := map[10 := OldObject]);
    assert s1.threads - {0} == map[];
    var s3 := s2.(pending := 1, threads := map[0 := ReleaseBody(10)]);
    Three(cfg, ORIGIN, s0, EnterOpen(0, OldObject), s1, DecideOpen(0, Opened(10)), s2, EnterRelease(0, 10), s3);
    LastRelease(cfg, s2, 10);
    Then(cfg, ORIGIN, s0, s3, InGrace());
  }

  /** The only reader closes and the grace timer is armed. */
  lemma LastRelease(cfg: Config, s: State, h: nat)
    requires s.handles.Keys == {h} && s.opens == 1 && s.threads == map[] && s.pending == 0
    ensures Reach(cfg, ORIGIN, s.(pending := 1, threads := map[0 := ReleaseBody(h)]),
                  s.(opens := 0, handles := map[], grace := true))
  {
    var s1 := s.(pending := 1, threads := map[0 := ReleaseBody(h)]);
    assert s.handles - {h} == map[] && s1.threads - {0} == map[];
    One(cfg, ORIGIN, s1, DoRelease(0, true), s.(opens := 0, handles := map[], grace := true));
  }

  const RESETTING := OpenResetting(NewObject, 0)

  /** Two opens of version two have met and the second one has won. */
  function Raced(): State {
    State(Some([0]), true, {}, 1, Some(V2), Some([7]), 1, false, None, 1, false, Some(1), 2, {},
          map[], map[12 := NewObject], map[1 := RESETTING], Resting)
  }

  lemma RaceOpens(cfg: Config)
    requires !cfg.lonelyReset
    ensures Reach(cfg, ORIGIN, InGrace(), Raced())
  {
    var s0 := InGrace();
    var s1 := s0.(pending := 1, threads := map[1 := OpenBody(NewObject)]);
    var s2 := s0.(pending := 2, threads := map[1 := OpenBody(NewObject), 2 := OpenBody(NewObject)]);
    var s3 := s2.(grace := false, dls := None, threads := map[1 := RESETTING, 2 := OpenBody(NewObject)]);
    assert s2.threads[1 := RESETTING] == s3.threads;
    Three(cfg, ORIGIN, s0, EnterOpen(1, NewObject), s1, EnterOpen(2, NewObject), s2, DecideOpen(1, Opened(11)), s3);
    RaceWon(cfg, s3);
    Then(cfg, ORIGIN, s0, s3, Raced());
  }

  lemma RaceWon(cfg: Config, s: State)
    requires !cfg.lonelyReset
    requires s == InGrace().(pending := 2, grace := false, dls := None,
                             threads := map[1 := RESETTING, 2 := OpenBody(NewObject)])
    ensures Reach(cfg, ORIGIN, s, Raced())
  {
    assert Resize([], 1) == [0];
    assert Below({}, 1) == {};
    assert s.threads - {2} == map[1 := RESETTING];
    One(cfg, ORIGIN, s, DecideOpen(2, Opened(12)), Raced());
  }

  lemma RaceQueues(cfg: Config, s: State)
    requires s == Raced().(pending := 2, threads := map[1 := RESETTING, 3 := ReadBegin(12, 0, 1)])
    ensures Reach(cfg, ORIGIN, s, Raced().(pending := 2, threads := map[1 := RESETTING, 3 := Waiting(12, 0, 1, 1)]))
  {
    var s1 := s.(threads := map[1 := RESETTING, 3 := Requesting(12, 0, 1, 1)]);
    assert 0 !in s.rs && !Cached(s, 0, 1);
    assert s.threads[3 := Requesting(12, 0, 1, 1)] == s1.threads;
    One(cfg, ORIGIN, s, CheckRange(3), s1);
    var s2 := s.(threads := map[1 := RESETTING, 3 := Waiting(12, 0, 1, 1)]);
    assert s1.threads[3 := Waiting(12, 0, 1, 1)] == s2.threads;
    One(cfg, ORIGIN, s1, Queue(3, true), s2);
    Then(cfg, ORIGIN, s, s1, s2);
  }

  /** The winner's reader has asked for its byte. */
  lemma RaceAsks(cfg: Config)
    ensures Reach(cfg, ORIGIN, Raced(), Raced().(pending := 2, threads := map[1 := RESETTING, 3 := Waiting(12, 0, 1, 1)]))
  {
    var s0 := Raced();
    var s1 := s0.(pending := 2, threads := map[1 := RESETTING, 3 := ReadBegin(12, 0, 1)]);
    One(cfg, ORIGIN, s0, EnterRead(3, 12, 0, 1), s1);
    RaceQueues(cfg, s1);
    Then(cfg, ORIGIN, s0, s1, s1.(threads := map[1 := RESETTING, 3 := Waiting(12, 0, 1, 1)]));
  }

  lemma WriteByte(cfg: Config, s: State, b: byte, g: nat)
    requires s.live == map[0 := Download(g, [b], 0, 0)]
    requires s.fdOpen && s.file == Some([0]) && s.rs == {}
    ensures Reach(cfg, ORIGIN, s, s.(file := Some([b]), rs := {0}, live := map[]))
  {
    assert WriteMissing([0], {}, [b], 0, 1) == [b];
    assert {} + Span(0, 1) == {0};
    var s1 := s.(file := Some([b]), rs := {0}, live := map[0 := Download(g, [b], 0, 1)]);
    assert s.live[0 := Download(g, [b], 0, 1)] == s1.live;
    One(cfg, ORIGIN, s, WriteDownload(0, 1), s1);
    var s2 := s.(file := Some([b]), rs := {0}, live := map[]);
    assert s1.live - {0} == map[];
    One(cfg, ORIGIN, s1, StopDownload(0), s2);
    Then(cfg, ORIGIN, s, s1, s2);
  }

  /** A download brings the first byte of the object and stops. */
  lemma FetchByte(cfg: Config, s: State, b: byte, g: nat)
    requires s.live == map[] && Asked(s, g) && s.obj == Some([b])
    requires s.fdOpen && s.file == Some([0]) && s.rs == {}
    ensures Reach(cfg, ORIGIN, s, s.(file := Some([b]), rs := {0}))
  {
    var s1 := s.(live := map[0 := Download(g, [b], 0, 0)]);
    One(cfg, ORIGIN, s, StartDownload(0, g, 0), s1);
    WriteByte(cfg, s1, b, g);
    assert s1.(file := Some([b]), rs := {0}, live := map[]) == s.(file := Some([b]), rs := {0});
    Then(cfg, ORIGIN, s, s1, s.(file := Some([b]), rs := {0}));
  }

  /**
   Two opens of a changed object within the grace period.  The first releases the
   item lock to stop the old scheduler; the second resets the item and gets a
   reader; then the first comes back, empties the file under that reader, and the
   read returns a zero byte.
   */
  lemma RacingOpensReadZeros(cfg: Config)
    requires !cfg.lonelyReset
    ensures !Transparent(cfg)
  {
    var s0 := OldOnDisk();
    WarmUp(cfg);
    RaceOpens(cfg);
    Then(cfg, ORIGIN, s0, InGrace(), Raced());
    RaceAsks(cfg);
    var s1 := Raced().(pending := 2, threads := map[1 := RESETTING, 3 := Waiting(12, 0, 1, 1)]);
    Then(cfg, ORIGIN, s0, Raced(), s1);
    assert Asked(s1, 1) by { assert s1.threads[3].Waiting?; }
    FetchByte(cfg, s1, 7, 1);
    var s2 := s1.(file := Some([7]), rs := {0});
    Then(cfg, ORIGIN, s0, s1, s2);
    RaceEnds(cfg, s2);
    var s3 := Emptied();
    Then(cfg, ORIGIN, s0, s2, s3);
    WrongByte(s3, 3, 12, [0], [7]);
    Refutes(cfg, s0, s3);
  }

  function Emptied(): State {
    Raced().(closed := {0}, opens := 2, handles := map[11 := NewObject, 12 := NewObject],
             threads := map[3 := ReadDone(12, 0, 1, Some([0]))])
  }

  lemma RaceResumes(cfg: Config, s: State)
    requires s == Raced().(pending := 2, file := Some([7]), rs := {0},
                           threads := map[1 := RESETTING, 3 := Granted(12, 0, 1)])
    ensures Reach(cfg, ORIGIN, s, Emptied().(threads := map[3 := Granted(12, 0, 1)]))
  {
    assert Resize([], 1) == [0];
    assert Below({}, 1) == {};
    assert s.threads - {1} == map[3 := Granted(12, 0, 1)];
    var s' := Emptied().(threads := map[3 := Granted(12, 0, 1)]);
    assert s.handles[11 := NewObject] == s'.handles;
    assert s.closed + {0} == {0};
    One(cfg, ORIGIN, s, ResumeOpen(1, Opened(11)), s');
  }

  lemma RaceReads(cfg: Config, s: State)
    requires s == Emptied().(threads := map[3 := Granted(12, 0, 1)])
    ensures Reach(cfg, ORIGIN, s, Emptied())
  {
    assert Slice([0], 0, 1) == [0];
    assert s.threads[3 := ReadDone(12, 0, 1, Some([0]))] == Emptied().threads;
    One(cfg, ORIGIN, s, ReadFile(3), Emptied());
  }

  lemma RaceEnds(cfg: Config, s: State)
    requires s == Raced().(pending := 2, file := Some([7]), rs := {0},
                           threads := map[1 := RESETTING, 3 := Waiting(12, 0, 1, 1)])
    ensures Reach(cfg, ORIGIN, s, Emptied())
  {
    var s1 := s.(threads := map[1 := RESETTING, 3 := Granted(12, 0, 1)]);
    assert s.threads[3 := Granted(12, 0, 1)] == s1.threads;
    One(cfg, ORIGIN, s, Dispatch(3), s1);
    var s2 := Emptied().(threads := map[3 := Granted(12, 0, 1)]);
    RaceResumes(cfg, s1);
    RaceReads(cfg, s2);
    Then(cfg, ORIGIN, s, s1, s2);
    Then(cfg, ORIGIN, s, s2, Emptied());
  }

  /************************* A stream of the old version *********************/

  function Nothing(): State {
    Cold(None, {}, None)
  }

  /** A first open of an object of one byte. */
  function FirstOpen(obj: Object): State {
    State(Some([0]), true, {}, 1, obj.validator, Some(obj.content), 1, false, None, 0, false, Some(0), 1, {},
          map[], map[10 := obj], map[], Resting)
  }

  lemma OpensFirst(cfg: Config, obj: Object)
    requires |obj.content| == 1 && (obj.validator.Some? ==> obj == OldObject)
    ensures Reach(cfg, ORIGIN, Nothing(), FirstOpen(obj))
  {
    var s0 := Nothing();
    var s1 := s0.(pending := 1, threads := map[0 := OpenBody(obj)]);
    One(cfg, ORIGIN, s0, EnterOpen(0, obj), s1);
    assert Resize([], 1) == [0];
    assert Below({}, 1) == {};
    assert s1.threads - {0} == map[];
    One(cfg, ORIGIN, s1, DecideOpen(0, Opened(10)), FirstOpen(obj));
    Then(cfg, ORIGIN, s0, s1, FirstOpen(obj));
  }

  /** A reader of the first open asks its scheduler for the missing byte. */
  lemma AsksFirst(cfg: Config, obj: Object)
    ensures Reach(cfg, ORIGIN, FirstOpen(obj),
                  FirstOpen(obj).(pending := 1, threads := map[3 := Requesting(10, 0, 1, 0)]))
  {
    var s0 := FirstOpen(obj);
    var s1 := s0.(pending := 1, threads := map[3 := ReadBegin(10, 0, 1)]);
    var s2 := s0.(pending := 1, threads := map[3 := Requesting(10, 0, 1, 0)]);
    One(cfg, ORIGIN, s0, EnterRead(3, 10, 0, 1), s1);
    assert 0 !in s1.rs && !Cached(s1, 0, 1);
    assert s1.threads[3 := Requesting(10, 0, 1, 0)] == s2.threads;
    One(cfg, ORIGIN, s1, CheckRange(3), s2);
    Then(cfg, ORIGIN, s0, s1, s2);
  }

  /** The scheduler fails the caller, who gives up. */
  lemma GivesUp(cfg: Config, s: State)
    requires s.threads == map[3 := Requesting(10, 0, 1, 0)] && s.pending == 1
    ensures Reach(cfg, ORIGIN, s, s.(pending := 0, threads := map[]))
  {
    var s1 := s.(threads := map[3 := ReadDone(10, 0, 1, None)]);
    assert s.threads[3 := ReadDone(10, 0, 1, None)] == s1.threads;
    One(cfg, ORIGIN, s, Queue(3, false), s1);
    assert s1.threads - {3} == map[];
    One(cfg, ORIGIN, s1, LeaveRead(3), s.(pending := 0, threads := map[]));
    Then(cfg, ORIGIN, s, s1, s.(pending := 0, threads := map[]));
  }

  const STREAM := Download(0, [5], 0, 0)

  /** Version two is open while a download of version one is still live. */
  function Stale(): State {
    FirstOpen(NewObject).(live := map[0 := STREAM], handles := map[11 := NewObject])
  }

  /** A reader of version one makes its scheduler open a stream and gives up. */
  lemma StreamStarts(cfg: Config)
    ensures Reach(cfg, ORIGIN, FirstOpen(OldObject), FirstOpen(OldObject).(live := map[0 := STREAM]))
  {
    var s1 := FirstOpen(OldObject);
    AsksFirst(cfg, OldObject);
    var s2 := s1.(pending := 1, threads := map[3 := Requesting(10, 0, 1, 0)]);
    var s3 := s2.(live := map[0 := STREAM]);
    assert Asked(s2, 0) by { assert s2.threads[3].Requesting?; }
    One(cfg, ORIGIN, s2, StartDownload(0, 0, 0), s3);
    Then(cfg, ORIGIN, s1, s2, s3);
    GivesUp(cfg, s3);
    Then(cfg, ORIGIN, s1, s3, s1.(live := map[0 := STREAM]));
  }

  lemma StaleStream(cfg: Config)
    requires !cfg.deadStreams
    ensures Reach(cfg, ORIGIN, Nothing(), Stale())
  {
    var s0, s1 := Nothing(), FirstOpen(OldObject);
    OpensFirst(cfg, OldObject);
    StreamStarts(cfg);
    var s2 := s1.(live := map[0 := STREAM]);
    Then(cfg, ORIGIN, s0, s1, s2);
    StaleSwap(cfg, s2);
    Then(cfg, ORIGIN, s0, s2, Stale());
  }

  lemma StaleSwap(cfg: Config, s: State)
    requires !cfg.deadStreams && s == FirstOpen(OldObject).(live := map[0 := STREAM])
    ensures Reach(cfg, ORIGIN, s, Stale())
  {
    var s1 := s.(pending := 1, threads := map[0 := ReleaseBody(10)]);
    One(cfg, ORIGIN, s, EnterRelease(0, 10), s1);
    LastRelease(cfg, s, 10);
    var s2 := s.(opens := 0, handles := map[], grace := true);
    Then(cfg, ORIGIN, s, s1, s2);
    StaleReopen(cfg, s2);
    Then(cfg, ORIGIN, s, s2, Stale());
  }

  lemma StaleReopen(cfg: Config, s: State)
    requires !cfg.deadStreams
    requires s == FirstOpen(OldObject).(live := map[0 := STREAM], opens := 0, handles := map[], grace := true)
    ensures Reach(cfg, ORIGIN, s, Stale())
  {
    var s1 := s.(pending := 1, threads := map[1 := OpenBody(NewObject)]);
    One(cfg, ORIGIN, s, EnterOpen(1, NewObject), s1);
    assert Resize([0], 1) == [0];
    assert s1.threads - {1} == map[];
    One(cfg, ORIGIN, s1, DecideOpen(1, Opened(11)), Stale());
    Then(cfg, ORIGIN, s, s1, Stale());
  }

  lemma AsksCached(cfg: Config, s: State)
    requires 11 in s.handles && s.threads == map[] && s.pending == 0 && !s.beingReset
    requires s.fdOpen && s.size == 1 && s.rs == {0} && s.dls == Some(0)
    ensures Reach(cfg, ORIGIN, s, s.(pending := 1, threads := map[3 := Ensuring(11, 0, 1, 0)]))
  {
    var s1 := s.(pending := 1, threads := map[3 := ReadBegin(11, 0, 1)]);
    var s2 := s.(pending := 1, threads := map[3 := Ensuring(11, 0, 1, 0)]);
    One(cfg, ORIGIN, s, EnterRead(3, 11, 0, 1), s1);
    assert s1.threads[3 := Ensuring(11, 0, 1, 0)] == s2.threads;
    One(cfg, ORIGIN, s1, CheckRange(3), s2);
    Then(cfg, ORIGIN, s, s1, s2);
  }

  lemma GetsCached(cfg: Config, s: State, b: byte)
    requires s.threads == map[3 := Ensuring(11, 0, 1, 0)] && s.fdOpen && s.file == Some([b])
    ensures Reach(cfg, ORIGIN, s, s.(threads := map[3 := ReadDone(11, 0, 1, Some([b]))]))
  {
    var s1 := s.(threads := map[3 := Granted(11, 0, 1)]);
    assert s.threads[3 := Granted(11, 0, 1)] == s1.threads;
    One(cfg, ORIGIN, s, Ensured(3, true), s1);
    var s2 := s.(threads := map[3 := ReadDone(11, 0, 1, Some([b]))]);
    assert Slice([b], 0, 1) == [b];
    assert s1.threads[3 := ReadDone(11, 0, 1, Some([b]))] == s2.threads;
    One(cfg, ORIGIN, s1, ReadFile(3), s2);
    Then(cfg, ORIGIN, s, s1, s2);
  }

  /** With its one byte cached, a read of handle 11 returns that byte. */
  lemma ReadsCached(cfg: Config, s: State, b: byte)
    requires 11 in s.handles && s.threads == map[] && s.pending == 0 && !s.beingReset
    requires s.fdOpen && s.file == Some([b]) && s.size == 1 && s.rs == {0} && s.dls == Some(0)
    ensures Reach(cfg, ORIGIN, s, s.(pending := 1, threads := map[3 := ReadDone(11, 0, 1, Some([b]))]))
  {
    AsksCached(cfg, s);
    var s1 := s.(pending := 1, threads := map[3 := Ensuring(11, 0, 1, 0)]);
    GetsCached(cfg, s1, b);
    Then(cfg, ORIGIN, s, s1, s1.(threads := map[3 := ReadDone(11, 0, 1, Some([b]))]));
  }

  /** The open check looks only at the cached size, so an old stream can write into a new version. */
  lemma StaleStreamMixesVersions(cfg: Config)
    requires !cfg.deadStreams
    ensures !Transparent(cfg)
  {
    StaleStream(cfg);
    StaleWrites(cfg);
    var s2 := Stale().(file := Some([5]), rs := {0}, live := map[0 := STREAM.(offset := 1)]);
    Then(cfg, ORIGIN, Nothing(), Stale(), s2);
    ReadsCached(cfg, s2, 5);
    var s3 := s2.(pending := 1, threads := map[3 := ReadDone(11, 0, 1, Some([5]))]);
    Then(cfg, ORIGIN, Nothing(), s2, s3);
    WrongByte(s3, 3, 11, [5], [7]);
    Refutes(cfg, Nothing(), s3);
  }

  lemma StaleWrites(cfg: Config)
    ensures Reach(cfg, ORIGIN, Stale(), Stale().(file := Some([5]), rs := {0}, live := map[0 := STREAM.(offset := 1)]))
  {
    var s1 := Stale();
    assert WriteMissing([0], {}, [5], 0, 1) == [5];
    assert {} + Span(0, 1) == {0};
    var s2 := s1.(file := Some([5]), rs := {0}, live := map[0 := STREAM.(offset := 1)]);
    assert s1.live[0 := STREAM.(offset := 1)] == s2.live;
    One(cfg, ORIGIN, s1, WriteDownload(0, 1), s2);
  }

  lemma WrongByte(s: State, t: nat, h: nat, got: Bytes, content: Bytes)
    requires t in s.threads && s.threads[t] == ReadDone(h, 0, 1, Some(got)) && |got| == |content| == 1
    requires h in s.handles && s.handles[h].content == content && got[0] != content[0]
    ensures !ReadsCorrect(s)
  {
    assert !Gets(s.threads[t].out, content, 0, 1);
  }

  /************************ Two unvalidated versions *************************/

  const PlainA := Object(None, [5])
  const PlainB := Object(None, [7])

  lemma CachedPlain(cfg: Config)
    ensures Reach(cfg, ORIGIN, Nothing(), FirstOpen(PlainA).(file := Some([5]), rs := {0}))
  {
    var s0, s1 := Nothing(), FirstOpen(PlainA);
    OpensFirst(cfg, PlainA);
    AsksFirst(cfg, PlainA);
    var s2 := s1.(pending := 1, threads := map[3 := Requesting(10, 0, 1, 0)]);
    Then(cfg, ORIGIN, s0, s1, s2);
    assert Asked(s2, 0) by { assert s2.threads[3].Requesting?; }
    FetchByte(cfg, s2, 5, 0);
    var s3 := s2.(file := Some([5]), rs := {0});
    Then(cfg, ORIGIN, s0, s2, s3);
    GivesUp(cfg, s3);
    Then(cfg, ORIGIN, s0, s3, s1.(file := Some([5]), rs := {0}));
  }

  lemma JoinPlain(cfg: Config)
    requires !cfg.sameUnvalidated
    ensures Reach(cfg, ORIGIN, FirstOpen(PlainA).(file := Some([5]), rs := {0}), Joined())
  {
    var s0 := FirstOpen(PlainA).(file := Some([5]), rs := {0});
    var s1 := s0.(pending := 1, threads := map[1 := OpenBody(PlainB)]);
    One(cfg, ORIGIN, s0, EnterOpen(1, PlainB), s1);
    assert Resize([5], 1) == [5];
    assert s1.threads - {1} == map[];
    One(cfg, ORIGIN, s1, DecideOpen(1, Opened(11)), Joined());
    Then(cfg, ORIGIN, s0, s1, Joined());
  }

  /** The second object has been let in on the bytes of the first. */
  function Joined(): State {
    FirstOpen(PlainB).(file := Some([5]), rs := {0}, opens := 2, handles := map[10 := PlainA, 11 := PlainB])
  }

  /** Two empty fingerprints compare equal, so a second unvalidated open shares the first one's bytes. */
  lemma UnvalidatedOpensShareBytes(cfg: Config)
    requires !cfg.sameUnvalidated
    ensures !Transparent(cfg)
  {
    var s0, s1 := Nothing(), FirstOpen(PlainA).(file := Some([5]), rs := {0});
    CachedPlain(cfg);
    JoinPlain(cfg);
    Then(cfg, ORIGIN, s0, s1, Joined());
    ReadsCached(cfg, Joined(), 5);
    var s2 := Joined().(pending := 1, threads := map[3 := ReadDone(11, 0, 1, Some([5]))]);
    Then(cfg, ORIGIN, s0, Joined(), s2);
    WrongByte(s2, 3, 11, [5], [7]);
    Refutes(cfg, s0, s2);
  }

  /** Cache transparency holds on every schedule exactly under the three assumptions. */
  lemma TransparencyCondition(cfg: Config)
    ensures Transparent(cfg) <==> cfg.lonelyReset && cfg.deadStreams && cfg.sameUnvalidated
  {
    if !cfg.lonelyReset {
      RacingOpensReadZeros(cfg);
    } else if !cfg.deadStreams {
      StaleStreamMixesVersions(cfg);
    } else if !cfg.sameUnvalidated {
      UnvalidatedOpensShareBytes(cfg);
    } else {
      CacheProtocolProofs.TransparentWhenSafe();
    }
  }
}
