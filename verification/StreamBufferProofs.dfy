/**
 What every run of the asynchronous buffer keeps: no token and no buffer is lost,
 no channel send waits, stopping ends, and the consumer sees the source in order.
 */
module StreamBufferProofs {
  import opened Common
  import opened Ranges
  import opened StreamBuffer

  function One(b: bool): nat { if b then 1 else 0 }

  /****************************** Conservation *******************************/

  function Owed(pc: Doing): nat {
    match pc
    case Refilling(_) => 1
    case Skipping(_, owed) => owed
    case Repaying(owed) => owed
    case _ => 0
  }

  function Busy(w: Work): nat {
    One(w.Filling? || w.Sending?)
  }

  function Total(s: State): nat {
    s.chan.tokens + |s.chan.ready| + One(s.cons.cur.Some?) + Busy(s.prod.pc) + s.past.lost
  }

  ghost predicate Conserved(c: Config, s: State) {
    && Total(s) + Owed(s.cons.pc) == c.buffers
    && (s.past.lost > 0 ==> s.chan.exit || s.past.skipFailed)
    && (s.cons.pc.Draining? ==> s.chan.exit)
    && (s.cons.pc.Receiving? || s.cons.pc.Refilling? ==> s.cons.cur == None)
    && (s.cons.pc.Holding? ==> s.cons.cur.Some?)
  }

  lemma SkipInTotal(s: State, left: nat, owed: nat)
    requires s.cons.cur.Some?
    ensures var t := SkipIn(s, left, owed);
      && Total(t) + Owed(t.cons.pc) == Total(s) + owed
      && t.chan == s.chan && (t.past.lost > s.past.lost ==> t.past.skipFailed)
      && (s.past.skipFailed ==> t.past.skipFailed)
      && (t.cons.pc.Skipping? || t.cons.pc.Repaying? || t.cons.pc.Skipped?)
  {
  }

  lemma SkipSwapTotal(s: State)
    ensures var t := TryPop(ReturnSpent(s));
      Total(t) + One(CurSpent(s)) == Total(s) && t.past == s.past && t.chan.exit == s.chan.exit
  {
    var u := ReturnSpent(s);
    assert Total(u) + One(CurSpent(s)) == Total(s);
  }

  lemma SkipRoundConserves(c: Config, s: State)
    requires Conserved(c, s) && SkipRoundStep(s).Some?
    ensures Conserved(c, SkipRoundStep(s).value)
  {
    var t := TryPop(ReturnSpent(s));
    SkipSwapTotal(s);
    if t.cons.cur.Some? {
      SkipInTotal(t, s.cons.pc.left, s.cons.pc.owed + One(CurSpent(s)));
    }
  }

  lemma RefreshConserves(c: Config, s: State, call: Call)
    requires Total(s) == c.buffers && (s.past.lost > 0 ==> s.chan.exit || s.past.skipFailed)
    ensures Conserved(c, Refresh(s, call))
  {
    if s.cons.cur.None? {
    } else if CurSpent(s) {
    } else {
    }
  }

  lemma SinkWriteConserves(c: Config, s: State, taken: nat, fails: bool)
    requires Conserved(c, s) && SinkWriteStep(s, taken, fails).Some?
    ensures Conserved(c, SinkWriteStep(s, taken, fails).value)
  {
    if !fails && s.cons.cur.value.err.None? {
      RefreshConserves(c, s.(cons := Taken(s.cons, taken)), Writing);
    }
  }

  lemma DrainConserves(c: Config, s: State)
    requires Conserved(c, s) && DrainStep(s).Some?
    ensures Conserved(c, DrainStep(s).value)
  {
    if s.cons.cur.Some? {
    } else if s.chan.ready != [] {
      assert Total(Pop(s)) == Total(s);
      assert Total(Lose(PutBack(Pop(s)))) == Total(s);
    } else {
    }
  }

  lemma ProducerConserves(c: Config, s: State, a: Action)
    requires Conserved(c, s) && OfProducer(a) && Step(c, s, a).Some?
    ensures Conserved(c, Step(c, s, a).value)
  {
    match a
    case TakeToken =>
    case Fill(n, err) =>
    case Send =>
    case SeeExit =>
  }

  /** Steps that only begin, end or mark something. */
  lemma MarkConserves(c: Config, s: State, a: Action)
    requires a.CopyOut? || a.BeginSkip? || a.Return? || a.StopBuffering? || a.BeginAbandon?
    requires Conserved(c, s) && Step(c, s, a).Some?
    ensures Conserved(c, Step(c, s, a).value)
  {
    match a
    case CopyOut =>
    case BeginSkip(skip) => BeginSkipConserves(c, s, skip);
    case Return =>
    case StopBuffering =>
    case BeginAbandon =>
  }

  lemma BeginSkipConserves(c: Config, s: State, skip: int)
    requires Conserved(c, s) && BeginSkipStep(s, skip).Some?
    ensures Conserved(c, BeginSkipStep(s, skip).value)
  {
  }

  lemma StepConserves(c: Config, s: State, a: Action)
    requires Conserved(c, s) && Step(c, s, a).Some?
    ensures Conserved(c, Step(c, s, a).value)
  {
    if OfProducer(a) {
      ProducerConserves(c, s, a);
      return;
    }
    match a
    case Begin(call) => RefreshConserves(c, s, call);
    case Refill =>
    case Receive => if s.chan.ready != [] { assert Total(Pop(s)) == Total(s); }
    case SinkWrite(taken, fails) => SinkWriteConserves(c, s, taken, fails);
    case SkipRound => SkipRoundConserves(c, s);
    case Repay =>
    case Drain => DrainConserves(c, s);
    case _ => MarkConserves(c, s, a);
  }

  /******************************* Accounting ********************************/

  function Queued(line: seq<Buf>, k: nat): nat
    decreases |line|
  {
    if line == [] then 0 else One(line[0].id == k) + Queued(line[1..], k)
  }

  lemma {:induction false} QueuedPush(line: seq<Buf>, b: Buf, k: nat)
    ensures Queued(line + [b], k) == Queued(line, k) + One(b.id == k)
    decreases |line|
  {
    if line == [] {
      assert line + [b] == [b];
    } else {
      assert (line + [b])[1..] == line[1..] + [b];
      QueuedPush(line[1..], b, k);
    }
  }

  /** How often borrowing k is given back. */
  function Returns(p: Pool, k: nat): nat {
    multiset(p.returned)[k]
  }

  function Worked(w: Work, k: nat): nat {
    match w
    case Filling(id, _) => One(id == k)
    case Sending(b) => One(b.id == k)
    case _ => 0
  }

  function Kept(cur: Option<Buf>, k: nat): nat {
    One(cur.Some? && cur.value.id == k)
  }

  /** In how many places borrowing k is: held, queued, being filled or given back. */
  function Places(s: State, k: nat): nat {
    Returns(s.pool, k) + Kept(s.cons.cur, k) + Queued(s.chan.ready, k) + Worked(s.prod.pc, k)
  }

  ghost predicate Accounted(s: State) {
    forall k: nat :: Places(s, k) == One(k < s.pool.next)
  }

  lemma PutBackMoves(s: State, k: nat)
    requires s.cons.cur.Some?
    ensures Places(PutBack(s), k) == Places(s, k)
  {
  }

  lemma PopMoves(s: State, k: nat)
    requires s.cons.cur == None && s.chan.ready != []
    ensures Places(Pop(s), k) == Places(s, k)
  {
  }

  lemma RefreshMoves(s: State, call: Call, k: nat)
    ensures Places(Refresh(s, call), k) == Places(s, k)
  {
    if CurSpent(s) {
      PutBackMoves(s, k);
      assert Places(Now(PutBack(s), Refilling(call)), k) == Places(PutBack(s), k);
    }
  }

  lemma SkipInMoves(s: State, left: nat, owed: nat, k: nat)
    requires s.cons.cur.Some?
    ensures Places(SkipIn(s, left, owed), k) == Places(s, k)
  {
    var t := SkipIn(s, left, owed);
    assert t.cons.cur.Some? && t.cons.cur.value.id == s.cons.cur.value.id;
    assert t.chan == s.chan && t.prod == s.prod && t.pool == s.pool;
  }

  lemma SkipSwapMoves(s: State, k: nat)
    ensures Places(TryPop(ReturnSpent(s)), k) == Places(s, k)
  {
    var u := ReturnSpent(s);
    if CurSpent(s) {
      PutBackMoves(s, k);
    }
    if u.cons.cur.None? && u.chan.ready != [] {
      PopMoves(u, k);
    }
  }

  lemma SkipMoves(s: State, k: nat)
    requires SkipRoundStep(s).Some?
    ensures Places(SkipRoundStep(s).value, k) == Places(s, k)
  {
    var t := TryPop(ReturnSpent(s));
    SkipSwapMoves(s, k);
    if t.cons.cur.Some? {
      SkipInMoves(t, s.cons.pc.left, s.cons.pc.owed + One(CurSpent(s)), k);
    }
  }

  lemma DrainMoves(s: State, k: nat)
    requires DrainStep(s).Some?
    ensures Places(DrainStep(s).value, k) == Places(s, k)
  {
    if s.cons.cur.Some? {
      PutBackMoves(s, k);
    } else if s.chan.ready != [] {
      PopMoves(s, k);
      PutBackMoves(Pop(s), k);
    }
  }

  lemma SinkWriteMoves(s: State, taken: nat, fails: bool, k: nat)
    requires SinkWriteStep(s, taken, fails).Some?
    ensures Places(SinkWriteStep(s, taken, fails).value, k) == Places(s, k)
  {
    if !fails && s.cons.cur.value.err.None? {
      RefreshMoves(s.(cons := Taken(s.cons, taken)), Writing, k);
    }
  }

  lemma ProducerMoves(c: Config, s: State, a: Action, k: nat)
    requires OfProducer(a) && Step(c, s, a).Some?
    ensures Places(Step(c, s, a).value, k) == Places(s, k) + One(a.TakeToken? && k == s.pool.next)
  {
    match a
    case TakeToken =>
    case Fill(n, err) =>
    case Send => QueuedPush(s.chan.ready, s.prod.pc.b, k);
    case SeeExit =>
  }

  lemma StepMoves(c: Config, s: State, a: Action, k: nat)
    requires Conserved(c, s) && Step(c, s, a).Some? && !OfProducer(a)
    ensures Places(Step(c, s, a).value, k) == Places(s, k)
  {
    match a
    case Begin(call) => RefreshMoves(s, call, k);
    case Refill =>
    case Receive => if s.chan.ready != [] { PopMoves(s, k); }
    case CopyOut =>
    case SinkWrite(taken, fails) => SinkWriteMoves(s, taken, fails, k);
    case BeginSkip(skip) =>
    case SkipRound => SkipMoves(s, k);
    case Repay =>
    case Return =>
    case StopBuffering =>
    case BeginAbandon =>
    case Drain => DrainMoves(s, k);
  }

  lemma StepNext(c: Config, s: State, a: Action)
    requires Step(c, s, a).Some?
    ensures Step(c, s, a).value.pool.next == s.pool.next + One(a.TakeToken?)
  {
  }

  lemma StepAccounts(c: Config, s: State, a: Action)
    requires Conserved(c, s) && Accounted(s) && Step(c, s, a).Some?
    ensures Accounted(Step(c, s, a).value)
  {
    StepNext(c, s, a);
    forall k: nat
      ensures Places(Step(c, s, a).value, k) == One(k < Step(c, s, a).value.pool.next)
    {
      if OfProducer(a) {
        ProducerMoves(c, s, a, k);
      } else {
        StepMoves(c, s, a, k);
      }
    }
  }

  /***************************** Stream position *****************************/

  function Current(v: Consumer): seq<Buf> {
    if v.cur.Some? then [v.cur.value] else []
  }

  function Newest(w: Work): seq<Buf> {
    if w.Sending? then [w.b] else []
  }

  /** The buffers between the consumer and the producer, in stream order. */
  function Line(s: State): seq<Buf> {
    Current(s.cons) + s.chan.ready + Newest(s.prod.pc)
  }

  function From(v: Consumer): nat {
    if v.cur.Some? then v.cur.value.at else v.pos
  }

  predicate Contiguous(line: seq<Buf>, from: nat, to: nat)
    decreases |line|
  {
    if line == [] then from == to
    else line[0].at == from && Contiguous(line[1..], line[0].End(), to)
  }

  predicate Faithful(src: seq<byte>, b: Buf) {
    && b.Ok() && b.End() <= |src| && b.data == src[b.at..b.End()]
    && (b.err == Some(Eof) ==> b.End() == |src|)
  }

  /** Only the newest buffer may carry an error, and none while the producer still reads. */
  predicate Quiet(line: seq<Buf>, w: Work) {
    forall i :: 0 <= i < |line| && (i < |line| - 1 || w.Selecting? || w.Filling?) ==> line[i].err == None
  }

  /** What waits in the queue and at the producer. */
  ghost predicate QueueOK(c: Config, s: State) {
    && s.prod.srcPos <= |c.src|
    && (forall i :: 0 <= i < |s.chan.ready| ==> Faithful(c.src, s.chan.ready[i]) && s.chan.ready[i].offset == 0)
    && (s.prod.pc.Sending? ==> Faithful(c.src, s.prod.pc.b) && s.prod.pc.b.offset == 0)
    && Quiet(Line(s), s.prod.pc)
  }

  ghost predicate ConsumerOK(c: Config, s: State) {
    && s.cons.pos <= |c.src|
    && (s.cons.cur.Some? ==>
          && Faithful(c.src, s.cons.cur.value)
          && s.cons.pos == s.cons.cur.value.at + s.cons.cur.value.offset)
    && (!s.past.skipped ==> s.cons.got == c.src[..s.cons.pos])
    && (s.cons.pc.Skipping? || s.cons.pc.Repaying? ==> s.past.skipped)
  }

  ghost predicate InOrder(s: State) {
    if s.past.drained then s.cons.cur == None && s.chan.ready == [] && s.prod.pc == Exited
    else s.cons.pc == Draining || Contiguous(Line(s), From(s.cons), s.prod.srcPos)
  }

  ghost predicate Positioned(c: Config, s: State) {
    QueueOK(c, s) && ConsumerOK(c, s) && InOrder(s)
  }

  lemma {:induction false} ContiguousPush(line: seq<Buf>, from: nat, to: nat, b: Buf)
    requires Contiguous(line, from, to) && b.at == to
    ensures Contiguous(line + [b], from, b.End())
    decreases |line|
  {
    if line == [] {
      assert line + [b] == [b];
    } else {
      assert (line + [b])[1..] == line[1..] + [b];
      ContiguousPush(line[1..], line[0].End(), to, b);
    }
  }

  lemma FillKeeps(c: Config, s: State, n: nat, err: Option<Error>)
    requires Positioned(c, s) && FillStep(c, s, n, err).Some?
    ensures Positioned(c, FillStep(c, s, n, err).value)
  {
    var s' := FillStep(c, s, n, err).value;
    assert Line(s') == Line(s) + [s'.prod.pc.b];
    if !s.past.drained && s.cons.pc != Draining {
      ContiguousPush(Line(s), From(s.cons), s.prod.srcPos, s'.prod.pc.b);
    }
  }

  lemma SendKeeps(c: Config, s: State)
    requires Positioned(c, s) && SendStep(c, s).Some?
    ensures Positioned(c, SendStep(c, s).value) && Line(SendStep(c, s).value) == Line(s)
  {
    var s' := SendStep(c, s).value;
    assert Line(s') == Line(s);
    assert Line(s)[|Line(s)| - 1] == s.prod.pc.b;
  }

  /** A spent current buffer leaves no gap. */
  lemma PutBackKeeps(c: Config, s: State)
    requires Positioned(c, s) && CurSpent(s)
    ensures Positioned(c, PutBack(s)) && Line(PutBack(s)) == Line(s)[1..]
  {
    assert Line(PutBack(s)) == Line(s)[1..];
  }

  lemma PopKeeps(c: Config, s: State)
    requires Positioned(c, s) && s.cons.cur == None && s.chan.ready != [] && s.cons.pc != Draining
    ensures Positioned(c, Pop(s)) && Line(Pop(s)) == Line(s)
  {
    assert Line(Pop(s)) == Line(s);
  }

  /** Moving within the current buffer. */
  lemma AdvanceKeeps(c: Config, s: State, v: Consumer, n: int)
    requires Positioned(c, s) && s.cons.cur.Some? && 0 <= s.cons.cur.value.offset + n <= |s.cons.cur.value.data|
    requires v.cur == Some(s.cons.cur.value.Advance(n)) && v.pos == s.cons.pos + n
    requires !s.past.skipped ==> v.got == c.src[..v.pos]
    requires v.pc.Skipping? || v.pc.Repaying? ==> s.past.skipped
    requires s.cons.pc != Draining
    ensures Positioned(c, s.(cons := v))
  {
    var s' := s.(cons := v);
    assert Line(s') == [v.cur.value] + Line(s)[1..];
    assert Line(s')[1..] == Line(s)[1..];
    assert Line(s')[0].err == Line(s)[0].err;
  }

  /** Steps that leave every buffer and the position alone. */
  lemma MarkKeeps(c: Config, s: State, s': State)
    requires Positioned(c, s)
    requires s'.prod == s.prod && s'.chan.ready == s.chan.ready && s'.cons.cur == s.cons.cur
    requires s'.cons.pos == s.cons.pos && s'.cons.got == s.cons.got
    requires s.past.skipped ==> s'.past.skipped
    requires s'.cons.pc.Skipping? || s'.cons.pc.Repaying? ==> s'.past.skipped
    requires s'.past.drained == s.past.drained
    requires s.cons.pc == Draining ==> s'.cons.pc == Draining
    ensures Positioned(c, s')
  {
    assert Line(s') == Line(s);
  }

  lemma TokenKeeps(c: Config, s: State)
    requires Positioned(c, s) && TakeTokenStep(s).Some?
    ensures Positioned(c, TakeTokenStep(s).value)
  {
    assert Line(TakeTokenStep(s).value) == Line(s);
  }

  lemma ExitKeeps(c: Config, s: State)
    requires Positioned(c, s) && SeeExitStep(s).Some?
    ensures Positioned(c, SeeExitStep(s).value)
  {
    assert Line(SeeExitStep(s).value) == Line(s);
  }

  lemma RefreshKeeps(c: Config, s: State, call: Call)
    requires Positioned(c, s) && s.cons.pc != Draining
    ensures Positioned(c, Refresh(s, call))
  {
    if CurSpent(s) {
      PutBackKeeps(c, s);
      MarkKeeps(c, PutBack(s), Refresh(s, call));
    } else {
      MarkKeeps(c, s, Refresh(s, call));
    }
  }

  lemma ReceiveKeeps(c: Config, s: State)
    requires Conserved(c, s) && Positioned(c, s) && ReceiveStep(s).Some?
    ensures Positioned(c, ReceiveStep(s).value)
  {
    if s.chan.ready != [] {
      PopKeeps(c, s);
      MarkKeeps(c, Pop(s), ReceiveStep(s).value);
    } else {
      MarkKeeps(c, s, ReceiveStep(s).value);
    }
  }

  /** What is taken from the current buffer is the next stretch of the source. */
  lemma TakenKeeps(c: Config, s: State, n: nat)
    requires Positioned(c, s) && Holds(s.cons) && n <= |s.cons.cur.value.Rest()|
    ensures Positioned(c, s.(cons := Taken(s.cons, n)))
    ensures s.cons.cur.value.Rest() == c.src[s.cons.pos..s.cons.cur.value.End()]
  {
    var b := s.cons.cur.value;
    assert b.Rest() == c.src[s.cons.pos..b.End()];
    assert c.src[..s.cons.pos] + b.Rest()[..n] == c.src[..s.cons.pos + n];
    AdvanceKeeps(c, s, Taken(s.cons, n), n);
  }

  lemma CopyOutKeeps(c: Config, s: State)
    requires Positioned(c, s) && CopyOutStep(s).Some?
    ensures Positioned(c, CopyOutStep(s).value)
  {
    var n := Min(s.cons.pc.call.want, |s.cons.cur.value.Rest()|);
    TakenKeeps(c, s, n);
    MarkKeeps(c, s.(cons := Taken(s.cons, n)), CopyOutStep(s).value);
  }

  lemma SinkWriteKeeps(c: Config, s: State, taken: nat, fails: bool)
    requires Positioned(c, s) && SinkWriteStep(s, taken, fails).Some?
    ensures Positioned(c, SinkWriteStep(s, taken, fails).value)
  {
    var t := s.(cons := Taken(s.cons, taken));
    TakenKeeps(c, s, taken);
    if fails || s.cons.cur.value.err.Some? {
      MarkKeeps(c, t, SinkWriteStep(s, taken, fails).value);
    } else {
      RefreshKeeps(c, t, Writing);
    }
  }

  lemma BeginSkipKeeps(c: Config, s: State, skip: int)
    requires Positioned(c, s) && BeginSkipStep(s, skip).Some?
    ensures Positioned(c, BeginSkipStep(s, skip).value)
  {
    var s' := BeginSkipStep(s, skip).value;
    if s.cons.err == None && skip < 0 && s'.cons.pc == Skipped(true) {
      RewindKeeps(c, s, s', skip);
    } else {
      MarkKeeps(c, s, s');
    }
  }

  lemma RewindKeeps(c: Config, s: State, s': State, skip: int)
    requires Positioned(c, s) && s.cons.pc == Idle && s.cons.cur.Some? && skip < 0
    requires s.cons.cur.value.offset + skip >= 0 && s.cons.pos + skip >= 0
    requires s'.cons.cur == Some(s.cons.cur.value.Advance(skip)) && s'.cons.pos == s.cons.pos + skip
    requires s'.cons.pc.Skipped? && s'.past.skipped && s'.past.drained == s.past.drained
    requires s'.prod == s.prod && s'.chan == s.chan
    ensures Positioned(c, s')
  {
    var t := s.(past := s'.past);
    MarkKeeps(c, s, t);
    AdvanceKeeps(c, t, s'.cons, skip);
    MarkKeeps(c, t.(cons := s'.cons), s');
  }

  lemma SkipInKeeps(c: Config, s: State, left: nat, owed: nat)
    requires Positioned(c, s) && s.cons.cur.Some? && s.past.skipped && s.cons.pc != Draining
    ensures Positioned(c, SkipIn(s, left, owed))
  {
    var b := s.cons.cur.value;
    var n := if |b.Rest()| < left then |b.Rest()| else left;
    var t := s.(cons := s.cons.(cur := Some(b.Advance(n)), pos := s.cons.pos + n));
    AdvanceKeeps(c, s, t.cons, n);
    MarkKeeps(c, t, SkipIn(s, left, owed));
  }

  lemma SkipSwapKeeps(c: Config, s: State)
    requires Positioned(c, s) && s.cons.pc != Draining
    ensures Positioned(c, TryPop(ReturnSpent(s)))
  {
    var u := ReturnSpent(s);
    if CurSpent(s) {
      PutBackKeeps(c, s);
    }
    if u.cons.cur.None? && u.chan.ready != [] {
      PopKeeps(c, u);
    }
  }

  lemma SkipRoundKeeps(c: Config, s: State)
    requires Positioned(c, s) && SkipRoundStep(s).Some?
    ensures Positioned(c, SkipRoundStep(s).value)
  {
    var t := TryPop(ReturnSpent(s));
    SkipSwapKeeps(c, s);
    if t.cons.cur.Some? {
      SkipInKeeps(c, t, s.cons.pc.left, s.cons.pc.owed + One(CurSpent(s)));
    } else {
      MarkKeeps(c, t, SkipRoundStep(s).value);
    }
  }

  /** While draining only the newest end of the line matters. */
  lemma DrainOneKeeps(c: Config, s: State, s': State)
    requires Positioned(c, s) && s.cons.pc == Draining && s'.cons == s.cons.(cur := None)
    requires s'.prod == s.prod && s'.past.skipped == s.past.skipped && s'.past.drained == s.past.drained
    requires if s.cons.cur.Some? then s'.chan.ready == s.chan.ready
             else s.chan.ready != [] && s'.chan.ready == s.chan.ready[1..]
    ensures Positioned(c, s')
  {
    assert Line(s') == Line(s)[1..];
  }

  lemma DrainKeeps(c: Config, s: State)
    requires Positioned(c, s) && DrainStep(s).Some?
    ensures Positioned(c, DrainStep(s).value)
  {
    var s' := DrainStep(s).value;
    if s.cons.cur.Some? || s.chan.ready != [] {
      DrainOneKeeps(c, s, s');
    } else {
      assert Line(s') == Line(s);
    }
  }

  lemma StepPositioned(c: Config, s: State, a: Action)
    requires Conserved(c, s) && Positioned(c, s) && Step(c, s, a).Some?
    ensures Positioned(c, Step(c, s, a).value)
  {
    match a
    case TakeToken => TokenKeeps(c, s);
    case Fill(n, err) => FillKeeps(c, s, n, err);
    case Send => SendKeeps(c, s);
    case SeeExit => ExitKeeps(c, s);
    case Begin(call) => RefreshKeeps(c, s, call);
    case Receive => ReceiveKeeps(c, s);
    case CopyOut => CopyOutKeeps(c, s);
    case SinkWrite(taken, fails) => SinkWriteKeeps(c, s, taken, fails);
    case BeginSkip(skip) => BeginSkipKeeps(c, s, skip);
    case SkipRound => SkipRoundKeeps(c, s);
    case Drain => DrainKeeps(c, s);
    case _ => MarkKeeps(c, s, Step(c, s, a).value);
  }

  /******************************* The end ***********************************/

  predicate Last(line: seq<Buf>, e: bool) {
    line != [] && line[|line| - 1].err.Some? == e
  }

  /** A current buffer that is spent and carried an error has had that error noted. */
  ghost predicate Noted(s: State) {
    CurSpent(s) && s.cons.cur.value.err.Some? ==>
      s.cons.err.Some? || s.past.endLost || s.cons.pc.Holding? || s.cons.pc.Repaying?
  }

  ghost predicate Explained(s: State) {
    s.prod.pc == Exited ==> s.chan.exit || s.past.endLost || s.cons.err.Some? || Last(Line(s), true)
  }

  ghost predicate ErrorOK(c: Config, s: State) {
    && (s.cons.err.Some? ==> s.chan.ready == [] && s.prod.pc == Exited && (s.cons.cur.Some? ==> CurSpent(s) && s.cons.cur.value.err == s.cons.err))
    && (s.cons.err == Some(Eof) ==> s.cons.pos == |c.src|)
  }

  ghost predicate ResultOK(c: Config, v: Consumer) {
    v.pc.Ended? && (v.pc.result == Some(Eof) || v.pc == Ended(Writing, None)) ==> v.pos == |c.src|
  }

  /** A lost end was the end: nothing is left behind it, and its error has not been noted. */
  ghost predicate LostOK(s: State) {
    && (s.past.endLost ==>
          && s.cons.err == None && s.chan.ready == [] && s.prod.pc == Exited
          && (s.cons.cur.Some? ==> CurSpent(s) && s.cons.cur.value.err.Some?))
    && (s.cons.pc.Holding? || s.cons.pc.Repaying? ==> s.cons.err == None && !s.past.endLost)
  }

  ghost predicate Ending(c: Config, s: State) {
    ErrorOK(c, s) && ResultOK(c, s.cons) && Noted(s) && Explained(s) && LostOK(s)
  }

  /** The current buffer with an error is the last one of the stream. */
  lemma LastOne(c: Config, s: State)
    requires Positioned(c, s) && s.cons.cur.Some? && s.cons.cur.value.err.Some?
    ensures s.chan.ready == [] && s.prod.pc == Exited && Line(s) == [s.cons.cur.value]
    ensures CurSpent(s) && s.cons.cur.value.err == Some(Eof) ==> s.cons.pos == |c.src|
  {
    assert Line(s)[0].err.Some?;
    assert |Line(s)| == 1;
  }

  /** Steps of the consumer that keep its buffer, its position and its error. */
  lemma MarkEnds(c: Config, s: State, s': State)
    requires Ending(c, s) && ResultOK(c, s'.cons)
    requires s'.prod == s.prod && s'.chan.ready == s.chan.ready && s'.cons.cur == s.cons.cur
    requires s'.cons.pos == s.cons.pos && s'.cons.err == s.cons.err
    requires s.chan.exit ==> s'.chan.exit
    requires s'.past.endLost == s.past.endLost
    requires s.cons.pc.Holding? || s.cons.pc.Repaying? ==> Noted(s')
    requires s'.cons.pc.Holding? || s'.cons.pc.Repaying? ==> s.cons.err == None && !s.past.endLost
    ensures Ending(c, s')
  {
    assert Line(s') == Line(s);
  }

  lemma ProducerEnds(c: Config, s: State, a: Action)
    requires OfProducer(a) && Positioned(c, s) && Ending(c, s) && Step(c, s, a).Some?
    ensures Ending(c, Step(c, s, a).value)
  {
    match a
    case TakeToken =>
    case Fill(n, err) =>
    case Send => SendKeeps(c, s);
      assert s.prod.pc.b.err.Some? ==> Last(Line(s), true);
    case SeeExit =>
  }

  lemma PutBackEnds(c: Config, s: State)
    requires Positioned(c, s) && Ending(c, s) && CurSpent(s) && ResultOK(c, s.cons)
    requires s.cons.cur.value.err.Some? ==> s.cons.err.Some? || s.past.endLost
    ensures Ending(c, PutBack(s))
  {
    PutBackKeeps(c, s);
    if s.cons.cur.value.err.None? && Last(Line(s), true) {
      assert Last(Line(s)[1..], true);
    }
  }

  lemma PopEnds(c: Config, s: State, pc: Doing)
    requires Positioned(c, s) && Ending(c, s) && s.cons.cur == None && s.chan.ready != [] && s.cons.pc != Draining
    requires !pc.Ended?
    ensures s.cons.err == None && !s.past.endLost
    ensures ErrorOK(c, Now(Pop(s), pc)) && Explained(Now(Pop(s), pc))
    ensures pc.Holding? ==> Ending(c, Now(Pop(s), pc))
  {
    PopKeeps(c, s);
  }

  lemma RefreshEnds(c: Config, s: State, call: Call)
    requires Positioned(c, s) && Ending(c, s) && s.cons.pc != Draining && ResultOK(c, s.cons)
    requires CurSpent(s) && s.cons.cur.value.err.Some? ==> s.cons.err.Some? || s.past.endLost
    ensures Ending(c, Refresh(s, call))
  {
    if CurSpent(s) {
      PutBackEnds(c, s);
      MarkEnds(c, PutBack(s), Refresh(s, call));
    } else {
      MarkEnds(c, s, Refresh(s, call));
    }
  }

  lemma ReceiveEnds(c: Config, s: State)
    requires Conserved(c, s) && Positioned(c, s) && Ending(c, s) && ReceiveStep(s).Some?
    ensures Ending(c, ReceiveStep(s).value)
  {
    if s.chan.ready != [] {
      PopEnds(c, s, Holding(s.cons.pc.call));
    } else {
      MarkEnds(c, s, ReceiveStep(s).value);
    }
  }

  /** Moving on in the current buffer, with its error noted once it is spent or in a state that will. */
  lemma AdvanceEnds(c: Config, s: State, s': State, n: nat)
    requires Positioned(c, s) && ErrorOK(c, s) && Explained(s) && Positioned(c, s')
    requires s.cons.cur.Some? && n <= |s.cons.cur.value.data| - s.cons.cur.value.offset
    requires s'.cons.cur == Some(s.cons.cur.value.Advance(n)) && s'.cons.pos == s.cons.pos + n
    requires s'.prod == s.prod && s'.chan == s.chan && !s.past.endLost
    requires s'.cons.err == s.cons.err || (s'.cons.err == s.cons.cur.value.err && CurSpent(s'))
    requires s'.past.endLost ==> s'.cons.err == None && CurSpent(s') && s.cons.cur.value.err.Some?
    requires s'.cons.pc.Holding? || s'.cons.pc.Repaying? ==> s'.cons.err == None && !s'.past.endLost
    requires ResultOK(c, s'.cons) && Noted(s')
    ensures Ending(c, s')
  {
    if s.cons.cur.value.err.Some? {
      LastOne(c, s);
      LastOne(c, s');
    }
    assert Line(s') == [s'.cons.cur.value] + Line(s)[1..];
    assert Last(Line(s'), true) == Last(Line(s), true);
  }

  lemma CopyOutEnds(c: Config, s: State)
    requires Positioned(c, s) && Ending(c, s) && CopyOutStep(s).Some?
    ensures Ending(c, CopyOutStep(s).value)
  {
    var n := Min(s.cons.pc.call.want, |s.cons.cur.value.Rest()|);
    var s' := CopyOutStep(s).value;
    CopyOutKeeps(c, s);
    if s'.cons.cur.value.err.Some? {
      LastOne(c, s');
    }
    AdvanceEnds(c, s, s', n);
  }

  lemma SinkWriteEnds(c: Config, s: State, taken: nat, fails: bool)
    requires Positioned(c, s) && Ending(c, s) && SinkWriteStep(s, taken, fails).Some?
    ensures Ending(c, SinkWriteStep(s, taken, fails).value)
  {
    var t := s.(cons := Taken(s.cons, taken));
    TakenKeeps(c, s, taken);
    if fails || s.cons.cur.value.err.Some? {
      SinkWriteKeeps(c, s, taken, fails);
      if t.cons.cur.value.err.Some? {
        LastOne(c, t);
      }
      AdvanceEnds(c, s, SinkWriteStep(s, taken, fails).value, taken);
    } else {
      AdvanceEnds(c, s, t, taken);
      RefreshEnds(c, t, Writing);
    }
  }

  lemma RewindEnds(c: Config, s: State, s': State, n: int)
    requires Positioned(c, s) && Ending(c, s) && s.cons.err == None
    requires s.cons.cur.Some? && 0 < n <= s.cons.cur.value.offset
    requires s'.cons.cur == Some(s.cons.cur.value.Advance(-n)) && s'.cons.err == None && s'.cons.pc.Skipped?
    requires s'.prod == s.prod && s'.chan == s.chan && !s'.past.endLost
    ensures Ending(c, s')
  {
    assert Line(s') == [s'.cons.cur.value] + Line(s)[1..];
    assert Last(Line(s'), true) == Last(Line(s), true);
  }

  lemma BeginSkipEnds(c: Config, s: State, skip: int)
    requires Positioned(c, s) && Ending(c, s) && BeginSkipStep(s, skip).Some?
    ensures Ending(c, BeginSkipStep(s, skip).value)
  {
    var s' := BeginSkipStep(s, skip).value;
    if s.cons.err == None && skip < 0 && s'.cons.pc == Skipped(true) {
      RewindEnds(c, s, s', -skip);
    } else {
      MarkEnds(c, s, s');
    }
  }

  lemma SkipInEnds(c: Config, s: State, left: nat, owed: nat)
    requires Positioned(c, s) && ErrorOK(c, s) && Explained(s)
    requires s.cons.cur.Some? && s.past.skipped && s.cons.pc != Draining && s.cons.err == None
    requires !s.past.endLost
    ensures Ending(c, SkipIn(s, left, owed))
  {
    var b := s.cons.cur.value;
    var n := if |b.Rest()| < left then |b.Rest()| else left;
    SkipInKeeps(c, s, left, owed);
    AdvanceEnds(c, s, SkipIn(s, left, owed), n);
  }

  lemma SkipSwapEnds(c: Config, s: State)
    requires Positioned(c, s) && Ending(c, s) && s.cons.pc.Skipping?
    ensures var t := TryPop(ReturnSpent(s));
      && ErrorOK(c, t) && Explained(t)
      && (t.cons.cur.Some? ==> t.cons.err == None && !t.past.endLost)
      && (t.cons.cur.None? ==> Ending(c, t))
  {
    var u := ReturnSpent(s);
    if CurSpent(s) {
      PutBackKeeps(c, s);
      PutBackEnds(c, s);
    }
    if u.cons.cur.None? && u.chan.ready != [] {
      PopEnds(c, u, u.cons.pc);
      assert Now(Pop(u), u.cons.pc) == Pop(u);
    }
  }

  lemma SkipRoundEnds(c: Config, s: State)
    requires Positioned(c, s) && Ending(c, s) && SkipRoundStep(s).Some?
    ensures Ending(c, SkipRoundStep(s).value)
  {
    var t := TryPop(ReturnSpent(s));
    SkipSwapKeeps(c, s);
    SkipSwapEnds(c, s);
    if t.cons.cur.Some? {
      SkipInEnds(c, t, s.cons.pc.left, s.cons.pc.owed + One(CurSpent(s)));
    } else {
      MarkEnds(c, t, SkipRoundStep(s).value);
    }
  }

  lemma RepayEnds(c: Config, s: State)
    requires Positioned(c, s) && Ending(c, s) && RepayStep(c, s).Some?
    ensures Ending(c, RepayStep(c, s).value)
  {
    var s' := RepayStep(c, s).value;
    assert Line(s') == Line(s);
    if s.cons.cur.Some? && s.cons.cur.value.err.Some? {
      LastOne(c, s);
    }
  }

  lemma DrainEnds(c: Config, s: State)
    requires Conserved(c, s) && Positioned(c, s) && Ending(c, s) && DrainStep(s).Some?
    ensures Ending(c, DrainStep(s).value)
  {
  }

  lemma StepEnds(c: Config, s: State, a: Action)
    requires Conserved(c, s) && Positioned(c, s) && Ending(c, s) && Step(c, s, a).Some?
    ensures Ending(c, Step(c, s, a).value)
  {
    match a
    case TakeToken => ProducerEnds(c, s, a);
    case Fill(n, err) => ProducerEnds(c, s, a);
    case Send => ProducerEnds(c, s, a);
    case SeeExit => ProducerEnds(c, s, a);
    case Begin(call) => RefreshEnds(c, s, call);
    case Receive => ReceiveEnds(c, s);
    case CopyOut => CopyOutEnds(c, s);
    case SinkWrite(taken, fails) => SinkWriteEnds(c, s, taken, fails);
    case BeginSkip(skip) => BeginSkipEnds(c, s, skip);
    case SkipRound => SkipRoundEnds(c, s);
    case Repay => RepayEnds(c, s);
    case Drain => DrainEnds(c, s);
    case _ => MarkEnds(c, s, Step(c, s, a).value);
  }

  /****************************** Every run **********************************/

  ghost predicate Inv(c: Config, s: State) {
    Conserved(c, s) && Accounted(s) && Positioned(c, s) && Ending(c, s)
  }

  lemma StartInv(c: Config)
    ensures Inv(c, Start(c))
  {
    assert Line(Start(c)) == [];
  }

  lemma StepKeeps(c: Config, s: State, a: Action)
    requires Inv(c, s) && Step(c, s, a).Some?
    ensures Inv(c, Step(c, s, a).value)
  {
    StepConserves(c, s, a);
    StepAccounts(c, s, a);
    StepPositioned(c, s, a);
    StepEnds(c, s, a);
  }

  lemma {:induction false} RunKeeps(c: Config, s: State, acts: seq<Action>)
    requires Inv(c, s) && Run(c, s, acts).Some?
    ensures Inv(c, Run(c, s, acts).value)
    decreases |acts|
  {
    if acts != [] {
      StepKeeps(c, s, acts[0]);
      RunKeeps(c, Step(c, s, acts[0]).value, acts[1..]);
    }
  }

  ghost predicate Reachable(c: Config, s: State) {
    exists acts :: Run(c, Start(c), acts) == Some(s)
  }

  lemma ReachableInv(c: Config, s: State)
    requires Reachable(c, s)
    ensures Inv(c, s)
  {
    var acts :| Run(c, Start(c), acts) == Some(s);
    StartInv(c);
    RunKeeps(c, Start(c), acts);
  }

  /**
   Tokens are conserved: those in the channel, the buffers queued, held and being
   filled, the refills still owed and those given up make up `buffers`; none is
   given up before a stop or a failed skip; so no channel send ever waits.
   */
  lemma TokensConserved(c: Config, s: State)
    requires Reachable(c, s)
    ensures s.chan.tokens + |s.chan.ready| + One(s.cons.cur.Some?) + Busy(s.prod.pc) + Owed(s.cons.pc) + s.past.lost
            == c.buffers
    ensures !s.chan.exit && !s.past.skipFailed ==> s.past.lost == 0
    ensures s.prod.pc.Sending? ==> SendStep(c, s).Some?
    ensures s.cons.pc.Refilling? ==> RefillStep(c, s).Some?
    ensures s.cons.pc.Repaying? ==> RepayStep(c, s).Some?
  {
    ReachableInv(c, s);
  }

  /** Every borrowing is given back at most once and, once abandoned, exactly once. */
  lemma BuffersReturnedOnce(c: Config, s: State, k: nat)
    requires Reachable(c, s)
    ensures multiset(s.pool.returned)[k] <= 1
    ensures s.past.drained ==> multiset(s.pool.returned)[k] == One(k < s.pool.next)
  {
    ReachableInv(c, s);
    assert Places(s, k) == One(k < s.pool.next);
  }

  /** What a call is about to hand out is the source from its position on, and all before it has been handed out. */
  lemma StreamPosition(c: Config, s: State)
    requires Reachable(c, s)
    ensures s.cons.pos <= |c.src| && (!s.past.skipped ==> s.cons.got == c.src[..s.cons.pos])
    ensures s.cons.pc.Holding? ==>
      s.cons.cur.Some? && s.cons.cur.value.Ok()
      && s.cons.cur.value.Rest() <= c.src[s.cons.pos..]
  {
    ReachableInv(c, s);
  }

  /**
   A sink that counts what it has taken from `start` on is offered the object's bytes
   at just that offset, whatever it took of earlier offers and however they ended.
   */
  lemma WritesAtOffset(c: Config, s: State, whole: seq<byte>, start: nat, taken: nat, fails: bool)
    requires start <= |whole| && c.src == whole[start..]
    requires Reachable(c, s) && !s.past.skipped && SinkWriteStep(s, taken, fails).Some?
    ensures var p, off := s.cons.cur.value.Rest(), start + |s.cons.got|;
      && off + |p| <= |whole| && p == whole[off..off + |p|]
      && start + |SinkWriteStep(s, taken, fails).value.cons.got| == off + taken
  {
    StreamPosition(c, s);
    var p, at := s.cons.cur.value.Rest(), s.cons.pos;
    assert |c.src[at..]| == |c.src| - at;
    assert p == c.src[at..][..|p|];
    assert c.src[at..][..|p|] == whole[start + at..start + at + |p|];
  }

  /** A call that reports the end, and a copy to a sink that ends without error, has passed the whole source. */
  lemma EndMeansAll(c: Config, s: State)
    requires Reachable(c, s) && s.cons.pc.Ended?
    requires s.cons.pc.result == Some(Eof) || s.cons.pc == Ended(Writing, None)
    ensures s.cons.pos == |c.src| && (!s.past.skipped ==> s.cons.got == c.src)
  {
    ReachableInv(c, s);
  }

  /**
   On a stream that nobody has stopped, a call that finds the queue closed is told that
   the stream was abandoned exactly when a failing write has lost the end; in every
   other case it gets the error that the source ended with.
   */
  lemma AbandonedExactlyWhenLost(c: Config, s: State)
    requires Reachable(c, s) && s.cons.pc.Receiving? && s.chan.ready == [] && s.prod.pc == Exited
    requires !s.chan.exit
    ensures s.cons.err == None <==> s.past.endLost
    ensures var call := s.cons.pc.call;
      ReceiveStep(s).value.cons.pc ==
        Ended(call, if s.past.endLost then Some(Abandoned)
                    else if call == Writing && s.cons.err == Some(Eof) then None else s.cons.err)
  {
    ReachableInv(c, s);
    assert Line(s) == [];
  }

  lemma {:induction false} RunSplit(c: Config, s: State, a: seq<Action>, b: seq<Action>)
    requires Run(c, s, a).Some?
    ensures Run(c, s, a + b) == Run(c, Run(c, s, a).value, b)
    decreases |a|
  {
    if a == [] {
      assert a + b == b;
    } else {
      assert (a + b)[1..] == a[1..] + b;
      RunSplit(c, Step(c, s, a[0]).value, a[1..], b);
    }
  }

  const ONE_EMPTY := Config([], 1)

  lemma EndIsQueued() returns (s: State)
    ensures Reachable(ONE_EMPTY, s) && !s.chan.exit && s.cons == Start(ONE_EMPTY).cons
    ensures s.chan == Channels(0, [Buf(0, 0, [], Some(Eof), 0)], false) && s.prod.pc == Exited
  {
    var c := ONE_EMPTY;
    assert Run(c, Start(c), []) == Some(Start(c));
    var s1 := Grow(c, Start(c), TakeToken);
    var s2 := Grow(c, s1, Fill(0, Some(Eof)));
    s := Grow(c, s2, Send);
  }

  /** An empty source whose end reached a sink that failed. */
  lemma SinkFailsAtEnd() returns (s: State)
    ensures Reachable(ONE_EMPTY, s) && !s.chan.exit && s.cons.err == None
    ensures s.cons.pc == Idle && CurSpent(s) && s.chan.ready == [] && s.chan.tokens == 0 && s.prod.pc == Exited
  {
    var c := ONE_EMPTY;
    var s3 := EndIsQueued();
    var s4 := Grow(c, s3, Begin(Writing));
    var s5 := Grow(c, s4, Receive);
    var s6 := Grow(c, s5, SinkWrite(0, true));
    s := Grow(c, s6, Return);
  }

  /** It happens: after a sink failed on the last buffer the end itself is forgotten. */
  lemma EndForgotten()
    ensures exists s :: Reachable(ONE_EMPTY, s) && !s.chan.exit && s.cons.pc == Ended(Writing, Some(Abandoned))
  {
    var s := SinkFailsAtEnd();
    var s1 := Grow(ONE_EMPTY, s, Begin(Writing));
    var s2 := Grow(ONE_EMPTY, s1, Refill);
    var s3 := Grow(ONE_EMPTY, s2, Receive);
  }

  lemma Grow(c: Config, s: State, a: Action) returns (s': State)
    requires Reachable(c, s) && Step(c, s, a).Some?
    ensures Reachable(c, s') && Step(c, s, a) == Some(s')
  {
    s' := Step(c, s, a).value;
    var acts :| Run(c, Start(c), acts) == Some(s);
    RunSplit(c, Start(c), acts, [a]);
    assert Run(c, Start(c), acts + [a]) == Some(s');
  }

  /******************************* Progress **********************************/

  ghost predicate ProducerCanMove(c: Config, s: State) {
    exists a :: OfProducer(a) && Step(c, s, a).Some?
  }

  lemma ProducerMayMove(c: Config, s: State)
    requires Inv(c, s) && s.prod.pc != Exited
    requires s.prod.pc == Selecting ==> s.chan.tokens > 0 || s.chan.exit
    ensures ProducerCanMove(c, s)
  {
    match s.prod.pc
    case Selecting =>
      if s.chan.tokens > 0 {
        assert Step(c, s, TakeToken).Some?;
      } else {
        assert Step(c, s, SeeExit).Some?;
      }
    case Filling(id, cap) => assert Step(c, s, Fill(0, Some(Failed))).Some?;
    case Sending(b) => assert Step(c, s, Send).Some?;
  }

  /** A consumer that waits for a buffer is never stuck: the producer can move, unless a failed skip has yet to abandon. */
  lemma ReceiverIsServed(c: Config, s: State)
    requires c.buffers > 0 && Reachable(c, s) && s.cons.pc.Receiving?
    requires s.past.skipFailed ==> s.chan.exit
    ensures ReceiveStep(s).Some? || ProducerCanMove(c, s)
  {
    ReachableInv(c, s);
    if s.chan.ready == [] && s.prod.pc != Exited {
      ProducerMayMove(c, s);
    }
  }

  function Distance(s: State): nat {
    3 * s.chan.tokens + match s.prod.pc
                        case Exited => 0
                        case Selecting => 1
                        case Sending(_) => 2
                        case Filling(_, _) => 3
  }

  lemma ProducerNears(c: Config, s: State, a: Action)
    requires OfProducer(a) && Step(c, s, a).Some?
    ensures Distance(Step(c, s, a).value) < Distance(s)
    ensures Step(c, s, a).value.cons == s.cons && Step(c, s, a).value.chan.exit == s.chan.exit
  {
  }

  /**
   Stopping ends, also from inside the consumer's own write, where only the
   producer moves: it makes at most 3 * buffers + 3 steps, whatever the select
   picks, and can always make one more until it has exited.
   */
  lemma {:induction false} StopEnds(c: Config, s: State, acts: seq<Action>)
    requires Inv(c, s) && s.chan.exit
    requires (forall i :: 0 <= i < |acts| ==> OfProducer(acts[i])) && Run(c, s, acts).Some?
    ensures var t := Run(c, s, acts).value;
      && |acts| <= Distance(s) <= 3 * c.buffers + 3
      && (t.prod.pc == Exited || ProducerCanMove(c, t))
      && t.cons == s.cons
    decreases |acts|
  {
    if acts == [] {
      if s.prod.pc != Exited {
        ProducerMayMove(c, s);
      }
    } else {
      ProducerNears(c, s, acts[0]);
      StepKeeps(c, s, acts[0]);
      StopEnds(c, Step(c, s, acts[0]).value, acts[1..]);
    }
  }
}
