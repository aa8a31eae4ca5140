/**
 What the asynchronous buffer does for its callers: the sizes of its buffers, what one
 call hands out and reports, where a skip lands, and that a copy can always be completed.
 */
module StreamBufferService {
  import opened Common
  import opened Ranges
  import opened StreamBuffer
  import opened StreamBufferProofs

  /******************************* Soft start ********************************/

  function Pow2(n: nat): (p: nat)
    ensures p >= 1
  {
    if n == 0 then 1 else 2 * Pow2(n - 1)
  }

  /** How much of the k-th buffer is used. */
  function Cap(k: nat): nat {
    Min(SOFT_START * Pow2(k), BUFFER_SIZE)
  }

  lemma CapDoubles(k: nat)
    ensures Cap(k + 1) == if Cap(k) < BUFFER_SIZE then 2 * Cap(k) else Cap(k)
  {
    CapIs(k);
    DoubleUp(k, Pow2(k), Pow2(k + 1));
  }

  lemma DoubleUp(k: nat, p: nat, q: nat)
    requires q == 2 * p
    requires if k >= 8 then SOFT_START * p >= BUFFER_SIZE else 2 * SOFT_START * p <= BUFFER_SIZE
    ensures var cap := Min(SOFT_START * p, BUFFER_SIZE);
      Min(SOFT_START * q, BUFFER_SIZE) == if cap < BUFFER_SIZE then 2 * cap else cap
  {
  }

  /** A buffer is so many times the first stretch that doubling meets it exactly. */
  lemma {:induction false} CapIs(k: nat)
    ensures k >= 8 ==> SOFT_START * Pow2(k) >= BUFFER_SIZE
    ensures k < 8 ==> 2 * SOFT_START * Pow2(k) <= BUFFER_SIZE
  {
    assert Pow2(8) == 256;
    if k > 8 {
      CapIs(k - 1);
    }
  }

  ghost predicate Growing(s: State) {
    s.prod.size == Cap(s.pool.next)
    && (s.prod.pc.Filling? ==> s.pool.next == s.prod.pc.id + 1 && s.prod.pc.cap == Cap(s.prod.pc.id))
  }

  lemma StepGrows(c: Config, s: State, a: Action)
    requires Growing(s) && Step(c, s, a).Some?
    ensures Growing(Step(c, s, a).value)
  {
    CapDoubles(s.pool.next);
  }

  lemma {:induction false} RunGrows(c: Config, s: State, acts: seq<Action>)
    requires Growing(s) && Run(c, s, acts).Some?
    ensures Growing(Run(c, s, acts).value)
    decreases |acts|
  {
    if acts != [] {
      StepGrows(c, s, acts[0]);
      RunGrows(c, Step(c, s, acts[0]).value, acts[1..]);
    }
  }

  /** Of the k-th buffer min(4 KiB * 2^k, 1 MiB) is filled. */
  lemma SoftStart(c: Config, s: State)
    requires Reachable(c, s) && s.prod.pc.Filling?
    ensures s.prod.pc.cap == Min(SOFT_START * Pow2(s.prod.pc.id), BUFFER_SIZE) > 0
  {
    var acts :| Run(c, Start(c), acts) == Some(s);
    RunGrows(c, Start(c), acts);
    CapIs(s.prod.pc.id);
  }

  /***************************** A whole copy ********************************/

  /** Some schedule leads from `s` to `s'`. */
  ghost predicate Leads(c: Config, s: State, s': State) {
    exists acts :: Run(c, s, acts) == Some(s')
  }

  lemma Here(c: Config, s: State)
    ensures Leads(c, s, s)
  {
    assert Run(c, s, []) == Some(s);
  }

  lemma Then(c: Config, s: State, m: State, a: Action, s': State)
    requires Leads(c, s, m) && Step(c, m, a) == Some(s')
    ensures Leads(c, s, s')
  {
    var acts :| Run(c, s, acts) == Some(m);
    RunSplit(c, s, acts, [a]);
    assert [a][1..] == [];
    assert Run(c, m, [a]) == Run(c, s', []);
    assert Run(c, s, acts + [a]) == Some(s');
  }

  /** A copy that waits for the k-th buffer, with everything before `pos` handed out. */
  function Awaiting(c: Config, k: nat, pos: nat, returned: seq<nat>): State
    requires pos <= |c.src|
  {
    State(Channels(c.buffers, [], false), Producer(Selecting, Cap(k), pos),
          Consumer(Receiving(Writing), None, None, pos, c.src[..pos]),
          Pool(k, returned), Past(0, false, false, false, false))
  }

  /** The same with that buffer filled and received. */
  function Offered(c: Config, k: nat, pos: nat, n: nat, returned: seq<nat>): State
    requires pos + n <= |c.src| && c.buffers > 0
  {
    var e := if n < Cap(k) then Some(Eof) else None;
    State(Channels(c.buffers - 1, [], false), Producer(if e.Some? then Exited else Selecting, Cap(k + 1), pos + n),
          Consumer(Holding(Writing), Some(Buf(k, pos, c.src[pos..pos + n], e, 0)), None, pos, c.src[..pos]),
          Pool(k + 1, returned), Past(0, false, false, false, false))
  }

  lemma Fills(c: Config, k: nat, pos: nat, n: nat, returned: seq<nat>)
    requires c.buffers > 0 && pos <= |c.src| && n == Min(Cap(k), |c.src| - pos)
    ensures Leads(c, Awaiting(c, k, pos, returned), Offered(c, k, pos, n, returned))
  {
    CapDoubles(k);
    var e := if n < Cap(k) then Some(Eof) else None;
    var s0 := Awaiting(c, k, pos, returned);
    Here(c, s0);
    var s1 := s0.(chan := Channels(c.buffers - 1, [], false), prod := Producer(Filling(k, Cap(k)), Cap(k + 1), pos),
                  pool := Pool(k + 1, returned));
    Then(c, s0, s0, TakeToken, s1);
    var b := Buf(k, pos, c.src[pos..pos + n], e, 0);
    var s2 := s1.(prod := Producer(Sending(b), Cap(k + 1), pos + n));
    Then(c, s0, s1, Fill(n, e), s2);
    var s3 := s2.(chan := Channels(c.buffers - 1, [b], false),
                  prod := Producer(if e.Some? then Exited else Selecting, Cap(k + 1), pos + n));
    assert [] + [b] == [b] && [b][1..] == [];
    Then(c, s0, s2, Send, s3);
    Then(c, s0, s3, Receive, Offered(c, k, pos, n, returned));
  }

  lemma TakesAll(c: Config, k: nat, pos: nat, n: nat, returned: seq<nat>) returns (s': State)
    requires c.buffers > 0 && pos <= |c.src| && n == Min(Cap(k), |c.src| - pos)
    ensures Leads(c, Offered(c, k, pos, n, returned), s')
    ensures n < Cap(k) ==> s'.cons.pc == Ended(Writing, None) && s'.cons.got == c.src
    ensures n == Cap(k) ==> s' == Awaiting(c, k + 1, pos + n, returned + [k])
  {
    var s0 := Offered(c, k, pos, n, returned);
    Here(c, s0);
    var s1 := SinkWriteStep(s0, n, false).value;
    var data := c.src[pos..pos + n];
    assert data[0..][..n] == data && c.src[..pos] + data == c.src[..pos + n];
    assert c.src[..|c.src|] == c.src;
    Then(c, s0, s0, SinkWrite(n, false), s1);
    s' := s1;
    if n == Cap(k) {
      CapIs(k);
      s' := Awaiting(c, k + 1, pos + n, returned + [k]);
      Then(c, s0, s1, Refill, s');
    }
  }

  lemma Chain(c: Config, s: State, m: State, s': State)
    requires Leads(c, s, m) && Leads(c, m, s')
    ensures Leads(c, s, s')
  {
    var a :| Run(c, s, a) == Some(m);
    var b :| Run(c, m, b) == Some(s');
    RunSplit(c, s, a, b);
    assert Run(c, s, a + b) == Some(s');
  }

  lemma {:induction false} CopyRest(c: Config, k: nat, pos: nat, returned: seq<nat>) returns (s': State)
    requires c.buffers > 0 && pos <= |c.src|
    ensures Leads(c, Awaiting(c, k, pos, returned), s')
    ensures s'.cons.pc == Ended(Writing, None) && s'.cons.got == c.src
    decreases |c.src| - pos
  {
    var n := Min(Cap(k), |c.src| - pos);
    Fills(c, k, pos, n, returned);
    s' := TakesAll(c, k, pos, n, returned);
    Chain(c, Awaiting(c, k, pos, returned), Offered(c, k, pos, n, returned), s');
    if n == Cap(k) {
      CapIs(k);
      var m := s';
      s' := CopyRest(c, k + 1, pos + n, returned + [k]);
      Chain(c, Awaiting(c, k, pos, returned), m, s');
    }
  }

  /** However few buffers there are, a copy to a sink that takes everything can be completed, and passes the whole source. */
  lemma CopyCompletes(c: Config) returns (s': State)
    requires c.buffers > 0
    ensures Reachable(c, s') && s'.cons.pc == Ended(Writing, None) && s'.cons.got == c.src
  {
    var s1 := Awaiting(c, 0, 0, []);
    Here(c, Start(c));
    Then(c, Start(c), Start(c), Begin(Writing), s1);
    s' := CopyRest(c, 0, 0, []);
    Chain(c, Start(c), s1, s');
  }

  /******************************** One call *********************************/

  /** A read hands out what it wants of the current buffer, and reports the source's error with the last of it. */
  lemma ReadHandsOut(c: Config, s: State, want: nat) returns (s': State)
    requires Reachable(c, s) && s.cons.pc == Holding(Reading(want))
    ensures Step(c, s, CopyOut) == Some(s') && s.cons.cur.Some?
    ensures var b := s.cons.cur.value; var left := |b.data| - b.offset;
      && left >= 0 && s'.cons.got == s.cons.got + b.data[b.offset..b.offset + Min(want, left)]
      && s'.cons.pos == s.cons.pos + Min(want, left)
      && s'.cons.pc == Ended(Reading(want), if want >= left then b.err else None)
  {
    StreamPosition(c, s);
    s' := Step(c, s, CopyOut).value;
  }

  /** A sink is offered the whole current buffer; an error of its own ends the copy, and so does the source's once all is taken. */
  lemma SinkIsOffered(c: Config, s: State, taken: nat, fails: bool)
    requires Reachable(c, s) && s.cons.pc == Holding(Writing)
    ensures s.cons.cur.Some? && s.cons.cur.value.offset <= |s.cons.cur.value.data|
    ensures var b := s.cons.cur.value; var left := |b.data| - b.offset; var r := Step(c, s, SinkWrite(taken, fails));
      && (r.Some? <==> taken <= left && (taken == left || fails))
      && (r.Some? ==>
            && r.value.cons.got == s.cons.got + b.data[b.offset..b.offset + taken]
            && (fails ==> r.value.cons.pc == Ended(Writing, Some(Failed)))
            && (!fails && b.err.Some? ==> r.value.cons.pc == Ended(Writing, if b.err == Some(Eof) then None else b.err))
            && (!fails && b.err.None? ==> !r.value.cons.pc.Ended?))
  {
    StreamPosition(c, s);
  }

  /** The source has reported `e` in the schedule. */
  ghost predicate Said(acts: seq<Action>, e: Option<Error>) {
    e == None || exists i :: 0 <= i < |acts| && acts[i].Fill? && acts[i].err == e
  }

  /** Every error that is kept, and every result, is one that the source has reported, or of the sink, or says abandoned. */
  ghost predicate AllSaid(s: State, acts: seq<Action>) {
    && (s.cons.cur.Some? ==> Said(acts, s.cons.cur.value.err))
    && (forall i :: 0 <= i < |s.chan.ready| ==> Said(acts, s.chan.ready[i].err))
    && (s.prod.pc.Sending? ==> Said(acts, s.prod.pc.b.err))
    && Said(acts, s.cons.err)
    && (s.cons.pc.Ended? ==> Reported(s.cons.pc.call, s.cons.pc.result, acts))
  }

  ghost predicate Reported(call: Call, e: Option<Error>, acts: seq<Action>) {
    e == Some(Abandoned) || (call == Writing && e == Some(Failed)) || Said(acts, e)
  }

  lemma SaidStill(acts: seq<Action>, a: Action, e: Option<Error>)
    requires Said(acts, e)
    ensures Said(acts + [a], e)
  {
    if e != None {
      var i :| 0 <= i < |acts| && acts[i].Fill? && acts[i].err == e;
      assert (acts + [a])[i] == acts[i];
    }
  }

  lemma AllSaidStill(s: State, acts: seq<Action>, a: Action)
    requires AllSaid(s, acts)
    ensures AllSaid(s, acts + [a])
  {
    forall e | Said(acts, e)
      ensures Said(acts + [a], e)
    {
      SaidStill(acts, a, e);
    }
  }

  lemma StepSays(c: Config, s: State, acts: seq<Action>, a: Action)
    requires AllSaid(s, acts) && Step(c, s, a).Some? && (a.Fill? ==> Said(acts, a.err))
    ensures AllSaid(Step(c, s, a).value, acts)
  {
    match a
    case SkipRound => SkipSays(s, acts);
    case Drain => DrainSays(s, acts);
    case SinkWrite(taken, fails) => SinkSays(s, acts, taken, fails);
    case TakeToken =>
    case Fill(n, err) =>
    case Send =>
    case SeeExit =>
    case Begin(call) =>
    case Refill =>
    case Receive =>
    case CopyOut =>
    case BeginSkip(skip) =>
    case Repay =>
    case Return =>
    case StopBuffering =>
    case BeginAbandon =>
  }

  lemma SkipSays(s: State, acts: seq<Action>)
    requires AllSaid(s, acts) && SkipRoundStep(s).Some?
    ensures AllSaid(SkipRoundStep(s).value, acts)
  {
    var t := TryPop(ReturnSpent(s));
    assert AllSaid(t, acts);
  }

  lemma DrainSays(s: State, acts: seq<Action>)
    requires AllSaid(s, acts) && DrainStep(s).Some?
    ensures AllSaid(DrainStep(s).value, acts)
  {
  }

  lemma SinkSays(s: State, acts: seq<Action>, taken: nat, fails: bool)
    requires AllSaid(s, acts) && SinkWriteStep(s, taken, fails).Some?
    ensures AllSaid(SinkWriteStep(s, taken, fails).value, acts)
  {
  }

  /** A result other than these two is the source's: the end, or what it failed with. */
  lemma {:induction false} ResultsAreSaid(c: Config, acts: seq<Action>)
    requires Run(c, Start(c), acts).Some?
    ensures AllSaid(Run(c, Start(c), acts).value, acts)
    decreases |acts|
  {
    if acts != [] {
      var front, a := acts[..|acts| - 1], acts[|acts| - 1];
      assert acts == front + [a];
      var s := BeforeLast(c, front, a);
      ResultsAreSaid(c, front);
      AllSaidStill(s, front, a);
      assert a.Fill? ==> acts[|acts| - 1] == a;
      StepSays(c, s, acts, a);
    }
  }

  lemma BeforeLast(c: Config, front: seq<Action>, a: Action) returns (s: State)
    requires Run(c, Start(c), front + [a]).Some?
    ensures Run(c, Start(c), front) == Some(s) && Step(c, s, a) == Run(c, Start(c), front + [a])
  {
    RunPrefix(c, Start(c), front, [a]);
    s := Run(c, Start(c), front).value;
    RunSplit(c, Start(c), front, [a]);
    assert [a][1..] == [];
  }

  lemma {:induction false} RunPrefix(c: Config, s: State, a: seq<Action>, b: seq<Action>)
    requires Run(c, s, a + b).Some?
    ensures Run(c, s, a).Some?
    decreases |a|
  {
    if a != [] {
      assert (a + b)[1..] == a[1..] + b;
      RunPrefix(c, Step(c, s, a[0]).value, a[1..], b);
    }
  }

  /********************************* Skips ***********************************/

  /** What may happen while the consumer skips. */
  predicate DuringSkip(a: Action) {
    OfProducer(a) || a.SkipRound? || a.Repay? || a.StopBuffering?
  }

  /** Where the skip in progress is to end. */
  function Target(s: State): int {
    s.cons.pos + if s.cons.pc.Skipping? then s.cons.pc.left else 0
  }

  predicate Skips(pc: Doing) {
    pc.Skipping? || pc.Repaying? || pc == Skipped(true)
  }

  lemma SkipHeads(c: Config, s: State, a: Action)
    requires DuringSkip(a) && Step(c, s, a).Some? && Skips(s.cons.pc)
    ensures var s' := Step(c, s, a).value;
      (Skips(s'.cons.pc) && Target(s') == Target(s)) || s'.cons.pc == Skipped(false)
  {
  }

  lemma {:induction false} SkipRun(c: Config, s: State, acts: seq<Action>)
    requires Skips(s.cons.pc) && Run(c, s, acts).Some?
    requires forall i :: 0 <= i < |acts| ==> DuringSkip(acts[i])
    ensures var s' := Run(c, s, acts).value;
      (Skips(s'.cons.pc) && Target(s') == Target(s)) || s'.cons.pc == Skipped(false)
    decreases |acts|
  {
    if acts != [] {
      SkipHeads(c, s, acts[0]);
      var s1 := Step(c, s, acts[0]).value;
      if Skips(s1.cons.pc) {
        SkipRun(c, s1, acts[1..]);
      } else {
        StaysFailed(c, s1, acts[1..]);
      }
    }
  }

  lemma {:induction false} StaysFailed(c: Config, s: State, acts: seq<Action>)
    requires s.cons.pc == Skipped(false) && Run(c, s, acts).Some?
    requires forall i :: 0 <= i < |acts| ==> DuringSkip(acts[i])
    ensures Run(c, s, acts).value.cons.pc == Skipped(false)
    decreases |acts|
  {
    if acts != [] {
      StaysFailed(c, Step(c, s, acts[0]).value, acts[1..]);
    }
  }

  /** A skip that succeeds has moved the position by just so much, forwards or backwards. */
  lemma SkipLands(c: Config, s: State, skip: int, acts: seq<Action>)
    requires BeginSkipStep(s, skip).Some? && Run(c, BeginSkipStep(s, skip).value, acts).Some?
    requires forall i :: 0 <= i < |acts| ==> DuringSkip(acts[i])
    ensures var s' := Run(c, BeginSkipStep(s, skip).value, acts).value;
      s'.cons.pc == Skipped(true) ==> s'.cons.pos == s.cons.pos + skip
  {
    var s1 := BeginSkipStep(s, skip).value;
    if Skips(s1.cons.pc) {
      SkipRun(c, s1, acts);
    } else {
      StaysFailed(c, s1, acts);
    }
  }

  /** A skip that stays inside the current buffer succeeds, with nothing else happening. */
  lemma SkipInside(c: Config, s: State, skip: int) returns (s': State)
    requires Reachable(c, s) && s.cons.pc == Idle && s.cons.err == None
    requires s.cons.cur.Some? && 0 <= s.cons.cur.value.offset + skip <= |s.cons.cur.value.data| && !CurSpent(s)
    requires skip < BUFFER_SIZE && s.cons.pos + skip >= 0
    ensures Leads(c, s, s') && s'.cons.pc == Skipped(true) && s'.cons.pos == s.cons.pos + skip
    ensures s'.cons.cur == Some(s.cons.cur.value.(offset := s.cons.cur.value.offset + skip))
    ensures s'.chan == s.chan && s'.prod == s.prod && s'.pool == s.pool
  {
    Here(c, s);
    var s1 := BeginSkipStep(s, skip).value;
    Then(c, s, s, BeginSkip(skip), s1);
    s' := s1;
    if skip >= 0 {
      var s2 := SkipRoundStep(s1).value;
      Then(c, s, s1, SkipRound, s2);
      s' := RepayStep(c, s2).value;
      Then(c, s, s2, Repay, s');
    }
  }

  /** The bytes that are there to be skipped, in the current buffer and in the queue. */
  function Stock(bufs: seq<Buf>): nat {
    if bufs == [] then 0
    else (if bufs[0].Ok() then |bufs[0].Rest()| else 0) + Stock(bufs[1..])
  }

  function Unread(s: State): nat {
    if s.cons.cur.Some? && s.cons.cur.value.Ok() then |s.cons.cur.value.Rest()| else 0
  }

  lemma ReachedOn(c: Config, s: State, s': State)
    requires Reachable(c, s) && Leads(c, s, s')
    ensures Reachable(c, s')
  {
    Chain(c, Start(c), s, s');
  }

  /** One round uses up what it can of the current buffer, or of the next one. */
  lemma OneRound(c: Config, s: State) returns (s': State)
    requires Reachable(c, s) && s.cons.pc.Skipping? && 0 < s.cons.pc.left <= Unread(s) + Stock(s.chan.ready)
    ensures Leads(c, s, s') && (s'.cons.pc.Skipping? || s'.cons.pc.Repaying?) && s'.prod == s.prod
    ensures Target(s') == Target(s)
    ensures s'.cons.pc.Skipping? ==>
      && 0 < s'.cons.pc.left <= Stock(s'.chan.ready) && |s'.chan.ready| <= |s.chan.ready| && Unread(s') == 0
      && (Unread(s) == 0 ==> |s'.chan.ready| < |s.chan.ready|)
  {
    ReachableInv(c, s);
    Here(c, s);
    if s.cons.cur.Some? && s.cons.cur.value.err.Some? {
      LastOne(c, s);
    }
    s' := SkipRoundStep(s).value;
    var t := TryPop(ReturnSpent(s));
    assert Unread(t) + Stock(t.chan.ready) == Unread(s) + Stock(s.chan.ready);
    FrontQuiet(c, s, t);
    Then(c, s, s, SkipRound, s');
  }

  /** Only the newest buffer carries an error. */
  lemma FrontQuiet(c: Config, s: State, t: State)
    requires Reachable(c, s) && t == TryPop(ReturnSpent(s)) && t.cons.cur.Some?
    ensures t.cons.cur.value.Ok() && (t.cons.cur.value.err.Some? ==> t.chan.ready == [])
    ensures s.cons.cur.Some? && s.cons.cur.value.err.Some? ==> s.chan.ready == []
  {
    ReachableInv(c, s);
    var line := Line(s);
    if s.cons.cur.Some? {
      assert line[0] == s.cons.cur.value;
      assert |s.chan.ready| > 0 ==> line[1] == s.chan.ready[0];
    } else {
      assert |s.chan.ready| > 0 ==> line[0] == s.chan.ready[0];
    }
  }

  lemma {:induction false} Rounds(c: Config, s: State) returns (s': State)
    requires Reachable(c, s) && s.cons.pc.Skipping? && 0 < s.cons.pc.left <= Unread(s) + Stock(s.chan.ready)
    ensures Leads(c, s, s') && s'.cons.pc.Repaying? && s'.cons.pos == s.cons.pos + s.cons.pc.left && s'.prod == s.prod
    decreases |s.chan.ready|, Unread(s)
  {
    var s1 := OneRound(c, s);
    s' := s1;
    if s1.cons.pc.Skipping? {
      ReachedOn(c, s, s1);
      s' := Rounds(c, s1);
      Chain(c, s, s1, s');
    }
  }

  lemma {:induction false} Repays(c: Config, s: State) returns (s': State)
    requires Reachable(c, s) && s.cons.pc.Repaying?
    ensures Leads(c, s, s') && s'.cons.pc == Skipped(true) && s'.cons.pos == s.cons.pos && s'.prod == s.prod
    decreases s.cons.pc.owed
  {
    TokensConserved(c, s);
    Here(c, s);
    var s1 := RepayStep(c, s).value;
    Then(c, s, s, Repay, s1);
    s' := s1;
    if s1.cons.pc.Repaying? {
      ReachedOn(c, s, s1);
      s' := Repays(c, s1);
      Chain(c, s, s1, s');
    }
  }

  /** A skip over bytes that are all there already succeeds without the producer. */
  lemma SkipQueued(c: Config, s: State, skip: nat) returns (s': State)
    requires Reachable(c, s) && s.cons.pc == Idle && s.cons.err == None
    requires 0 < skip <= Unread(s) + Stock(s.chan.ready) && skip < (|s.chan.ready| + 1) * BUFFER_SIZE
    ensures Leads(c, s, s') && s'.cons.pc == Skipped(true) && s'.cons.pos == s.cons.pos + skip && s'.prod == s.prod
  {
    Here(c, s);
    var s1 := BeginSkipStep(s, skip).value;
    Then(c, s, s, BeginSkip(skip), s1);
    ReachedOn(c, s, s1);
    var s2 := Rounds(c, s1);
    Chain(c, s, s1, s2);
    ReachedOn(c, s, s2);
    s' := Repays(c, s2);
    Chain(c, s, s2, s');
  }

  /** A buffer that is not filled up carries the reason, and an end comes only at the end. */
  lemma FilledUp(c: Config, s: State, n: nat, err: Option<Error>)
    requires Reachable(c, s) && s.prod.pc.Filling?
    ensures Step(c, s, Fill(n, err)).Some? ==>
      && n <= s.prod.pc.cap && (n < s.prod.pc.cap ==> err.Some?)
      && (err == Some(Eof) ==> s.prod.srcPos + n == |c.src|)
  {
  }

  /** A producer that is not busy with a buffer leaves as soon as it looks, once it has been told to stop, and not before. */
  lemma StopIsSeen(c: Config, s: State)
    ensures Step(c, s, StopBuffering) == if s.chan.exit then None else Some(s.(chan := s.chan.(exit := true)))
    ensures s.prod.pc == Selecting ==>
      Step(c, s, SeeExit) == if s.chan.exit then Some(s.(prod := s.prod.(pc := Exited))) else None
  {
  }

  /** When a call or a skip is over the next one may begin. */
  lemma Returns(c: Config, s: State)
    requires s.cons.pc.Ended? || s.cons.pc.Skipped?
    ensures Step(c, s, Return) == Some(s.(cons := s.cons.(pc := Idle)))
  {
  }

  /******************************** Abandon **********************************/

  lemma {:induction false} DrainsAll(c: Config, s: State) returns (s': State)
    requires s.cons.pc == Draining && s.prod.pc == Exited
    ensures Leads(c, s, s') && s'.past.drained && s'.cons.pc == Idle && s'.chan.ready == [] && s'.cons.cur.None?
    decreases |s.chan.ready|, s.cons.cur.Some?
  {
    Here(c, s);
    var s1 := DrainStep(s).value;
    Then(c, s, s, Drain, s1);
    s' := s1;
    if s.cons.cur.Some? || s.chan.ready != [] {
      s' := DrainsAll(c, s1);
      Chain(c, s, s1, s');
    }
  }

  /** Once the producer has exited an abandon can be completed; no buffer is kept. */
  lemma AbandonCompletes(c: Config, s: State) returns (s': State)
    requires s.chan.exit && s.cons.pc == Idle && s.prod.pc == Exited
    ensures Leads(c, s, s') && s'.past.drained && s'.chan.ready == [] && s'.cons.cur.None?
  {
    Here(c, s);
    var s1 := BeginAbandonStep(s).value;
    Then(c, s, s, BeginAbandon, s1);
    s' := DrainsAll(c, s1);
    Chain(c, s, s1, s');
  }
}
