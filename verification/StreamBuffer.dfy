/**
 The asynchronous buffer between a source and its consumer: a producer fills
 buffers against tokens and queues them, the consumer takes them in order.  Each
 step is one channel operation or one stretch of code that touches no channel, so
 a run is any interleaving of the producer, the consumer and a caller that stops
 or abandons the stream.
 */
module StreamBuffer {
  import opened Common
  import opened Ranges

  const BUFFER_SIZE: nat := 1024 * 1024
  const SOFT_START: nat := 4 * 1024

  /** One pooled buffer, numbered by its borrowing, holding source bytes from `at`. */
  datatype Buf = Buf(id: nat, at: nat, data: seq<byte>, err: Option<Error>, offset: nat) {
    predicate Ok() { offset <= |data| }

    function End(): nat { at + |data| }

    predicate Spent() { offset >= |data| }

    function Rest(): seq<byte>
      requires Ok()
    {
      data[offset..]
    }

    function Advance(n: int): Buf
      requires offset + n >= 0
    {
      this.(offset := offset + n)
    }
  }

  datatype Work = Selecting | Filling(id: nat, cap: nat) | Sending(b: Buf) | Exited

  datatype Call = Reading(want: nat) | Writing

  datatype Doing =
    | Idle
    | Refilling(call: Call)                       // gave its buffer back, owes a token
    | Receiving(call: Call)
    | Holding(call: Call)                         // about to hand out the current buffer
    | Ended(call: Call, result: Option<Error>)
    | Skipping(left: nat, owed: nat)
    | Repaying(owed: nat)
    | Skipped(ok: bool)
    | Draining

  datatype Config = Config(src: seq<byte>, buffers: nat)

  datatype Channels = Channels(tokens: nat, ready: seq<Buf>, exit: bool)

  /** What the producer is doing, the size of its next buffer and how far it has read. */
  datatype Producer = Producer(pc: Work, size: nat, srcPos: nat)

  /** The consumer: its call, its current buffer, its error, its stream position and all it has taken. */
  datatype Consumer = Consumer(pc: Doing, cur: Option<Buf>, err: Option<Error>, pos: nat, got: seq<byte>)

  /** The pool: the number of the next borrowing and the borrowings given back, in order. */
  datatype Pool = Pool(next: nat, returned: seq<nat>)

  /**
   What has happened: tokens that will not come back, skips, a finished Abandon.  The
   mark `endLost` says that a failing write took the last of the buffer that carried the
   end, and that it has not been skipped back into since.
   */
  datatype Past = Past(lost: nat, skipped: bool, skipFailed: bool, endLost: bool, drained: bool)

  datatype State = State(chan: Channels, prod: Producer, cons: Consumer, pool: Pool, past: Past)

  datatype Action =
    | TakeToken
    | Fill(n: nat, err: Option<Error>)
    | Send
    | SeeExit
    | Begin(call: Call)
    | Refill
    | Receive
    | CopyOut
    | SinkWrite(taken: nat, fails: bool)
    | BeginSkip(skip: int)
    | SkipRound
    | Repay
    | Return
    | StopBuffering
    | BeginAbandon
    | Drain

  function Start(c: Config): State {
    State(Channels(c.buffers, [], false), Producer(Selecting, SOFT_START, 0), Consumer(Idle, None, None, 0, []),
          Pool(0, []), Past(0, false, false, false, false))
  }

  /****************************** The producer *******************************/

  /** The first buffers are used only in part, twice as much each time. */
  function TakeTokenStep(s: State): Option<State> {
    if s.prod.pc != Selecting || s.chan.tokens == 0 then None
    else
      var cap := if s.prod.size < BUFFER_SIZE then s.prod.size else BUFFER_SIZE;
      var size := if s.prod.size < BUFFER_SIZE then 2 * s.prod.size else s.prod.size;
      Some(s.(chan := s.chan.(tokens := s.chan.tokens - 1), pool := s.pool.(next := s.pool.next + 1),
           prod := s.prod.(pc := Filling(s.pool.next, cap), size := size)))
  }

  /** The source fills the buffer or says why not; it reports the end only at its end. */
  function FillStep(c: Config, s: State, n: nat, err: Option<Error>): Option<State> {
    if !s.prod.pc.Filling? || n > s.prod.pc.cap || s.prod.srcPos + n > |c.src|
       || (n < s.prod.pc.cap && err == None)
       || (err == Some(Eof) && s.prod.srcPos + n != |c.src|) then None
    else
      var from := s.prod.srcPos;
      var b := Buf(s.prod.pc.id, from, c.src[from..from + n], err, 0);
      Some(s.(prod := s.prod.(pc := Sending(b), srcPos := from + n)))
  }

  /** The queue holds at most `buffers`; a send to a full one waits. */
  function SendStep(c: Config, s: State): Option<State> {
    if !s.prod.pc.Sending? || |s.chan.ready| >= c.buffers then None
    else
      var b := s.prod.pc.b;
      Some(s.(chan := s.chan.(ready := s.chan.ready + [b]),
           prod := s.prod.(pc := if b.err.Some? then Exited else Selecting)))
  }

  function SeeExitStep(s: State): Option<State> {
    if s.prod.pc != Selecting || !s.chan.exit then None else Some(s.(prod := s.prod.(pc := Exited)))
  }

  /****************************** The consumer *******************************/

  function Now(s: State, pc: Doing): State {
    s.(cons := s.cons.(pc := pc))
  }

  /** The current buffer goes back to the pool. */
  function PutBack(s: State): State
    requires s.cons.cur.Some?
  {
    s.(cons := s.cons.(cur := None), pool := s.pool.(returned := s.pool.returned + [s.cons.cur.value.id]))
  }

  /** The oldest queued buffer becomes the current one. */
  function Pop(s: State): State
    requires s.chan.ready != []
  {
    s.(chan := s.chan.(ready := s.chan.ready[1..]), cons := s.cons.(cur := Some(s.chan.ready[0])))
  }

  predicate CurSpent(s: State) {
    s.cons.cur.Some? && s.cons.cur.value.Spent()
  }

  /** A spent current buffer goes back to the pool before the next one is received. */
  function Refresh(s: State, call: Call): State {
    if s.cons.cur.None? then Now(s, Receiving(call))
    else if CurSpent(s) then Now(PutBack(s), Refilling(call))
    else Now(s, Holding(call))
  }

  function BeginStep(s: State, call: Call): Option<State> {
    if s.cons.pc != Idle then None else Some(Refresh(s, call))
  }

  function RefillStep(c: Config, s: State): Option<State> {
    if !s.cons.pc.Refilling? || s.chan.tokens >= c.buffers then None
    else Some(Now(s.(chan := s.chan.(tokens := s.chan.tokens + 1)), Receiving(s.cons.pc.call)))
  }

  /** What a call reports when the queue is closed: to a sink the end is no error. */
  function Closing(call: Call, err: Option<Error>): Option<Error> {
    if err == None then Some(Abandoned)
    else if call == Writing && err == Some(Eof) then None
    else err
  }

  function ReceiveStep(s: State): Option<State> {
    if !s.cons.pc.Receiving? then None
    else if s.chan.ready != [] then Some(Now(Pop(s), Holding(s.cons.pc.call)))
    else if s.prod.pc == Exited then
      Some(Now(s, Ended(s.cons.pc.call, Closing(s.cons.pc.call, s.cons.err))))
    else None
  }

  function Taken(v: Consumer, n: nat): Consumer
    requires v.cur.Some? && v.cur.value.Ok() && n <= |v.cur.value.Rest()|
  {
    v.(cur := Some(v.cur.value.Advance(n)), pos := v.pos + n, got := v.got + v.cur.value.Rest()[..n])
  }

  predicate Holds(v: Consumer) {
    v.pc.Holding? && v.cur.Some? && v.cur.value.Ok()
  }

  function CopyOutStep(s: State): Option<State> {
    if !Holds(s.cons) || !s.cons.pc.call.Reading? then None
    else
      var b := s.cons.cur.value;
      var n := Min(s.cons.pc.call.want, |b.Rest()|);
      var v := Taken(s.cons, n);
      if n == |b.Rest()| then Some(s.(cons := v.(err := b.err, pc := Ended(s.cons.pc.call, b.err))))
      else Some(s.(cons := v.(pc := Ended(s.cons.pc.call, None))))
  }

  /** A sink that takes less than it is offered says so with an error. */
  function SinkWriteStep(s: State, taken: nat, fails: bool): Option<State> {
    if !Holds(s.cons) || s.cons.pc.call != Writing
       || taken > |s.cons.cur.value.Rest()| || (taken < |s.cons.cur.value.Rest()| && !fails) then None
    else
      var e, v := s.cons.cur.value.err, Taken(s.cons, taken);
      if fails then
        Some(s.(cons := v.(pc := Ended(Writing, Some(Failed))),
             past := s.past.(endLost := e.Some? && taken == |s.cons.cur.value.Rest()|)))
      else if e.Some? then
        Some(s.(cons := v.(err := e, pc := Ended(Writing, if e == Some(Eof) then None else e))))
      else Some(Refresh(s.(cons := v), Writing))
  }

  function Refuse(s: State): State {
    Now(s, Skipped(false)).(past := s.past.(skipped := true, skipFailed := true))
  }

  /** Backwards only within the current buffer; forwards only within what may be queued. */
  function BeginSkipStep(s: State, skip: int): Option<State> {
    if s.cons.pc != Idle then None
    else if s.cons.err.Some? then Some(Refuse(s))
    else if skip < 0 then
      if s.cons.cur.Some? && s.cons.cur.value.offset + skip >= 0 && s.cons.pos + skip >= 0 then
        var v := s.cons.(cur := Some(s.cons.cur.value.Advance(skip)), pos := s.cons.pos + skip, pc := Skipped(true));
        Some(s.(cons := v, past := s.past.(skipped := true, endLost := false)))
      else Some(Refuse(s))
    else if skip >= (|s.chan.ready| + 1) * BUFFER_SIZE then Some(Refuse(s))
    else Some(Now(s, Skipping(skip, 0)).(past := s.past.(skipped := true)))
  }

  function GiveUp(s: State, owed: nat): State {
    Now(s, Skipped(false)).(past := s.past.(skipFailed := true, lost := s.past.lost + owed))
  }

  function ReturnSpent(s: State): State {
    if CurSpent(s) then PutBack(s) else s
  }

  /** With no current buffer the next one is taken if it is there; this does not wait. */
  function TryPop(s: State): State {
    if s.cons.cur.None? && s.chan.ready != [] then Pop(s) else s
  }

  /** One round of the skip loop: a spent buffer is replaced if it can be, then used up as far as needed. */
  function SkipRoundStep(s: State): Option<State> {
    if !s.cons.pc.Skipping? then None
    else
      var t := TryPop(ReturnSpent(s));
      var owed := s.cons.pc.owed + if CurSpent(s) then 1 else 0;
      if t.cons.cur.None? then Some(GiveUp(t, owed)) else Some(SkipIn(t, s.cons.pc.left, owed))
  }

  function SkipIn(s: State, left: nat, owed: nat): State
    requires s.cons.cur.Some?
  {
    var b := s.cons.cur.value;
    var n := if b.Ok() && |b.Rest()| < left then |b.Rest()| else left;
    var t := s.(cons := s.cons.(cur := Some(b.Advance(n)), pos := s.cons.pos + n));
    if left == n then Now(t, Repaying(owed))
    else if b.err.Some? then GiveUp(t.(cons := t.cons.(err := b.err)), owed)
    else Now(t, Skipping(left - n, owed))
  }

  function RepayStep(c: Config, s: State): Option<State> {
    if !s.cons.pc.Repaying? then None
    else if s.cons.pc.owed > 0 then
      if s.chan.tokens >= c.buffers then None
      else Some(Now(s.(chan := s.chan.(tokens := s.chan.tokens + 1)), Repaying(s.cons.pc.owed - 1)))
    else if CurSpent(s) && s.cons.cur.value.err.Some? then
      Some(s.(cons := s.cons.(err := s.cons.cur.value.err, pc := Skipped(true))))
    else Some(Now(s, Skipped(true)))
  }

  function ReturnStep(s: State): Option<State> {
    if s.cons.pc.Ended? || s.cons.pc.Skipped? then Some(Now(s, Idle)) else None
  }

  /*************************** Stop and abandon ******************************/

  function StopBufferingStep(s: State): Option<State> {
    if s.chan.exit then None else Some(s.(chan := s.chan.(exit := true)))
  }

  function BeginAbandonStep(s: State): Option<State> {
    if !s.chan.exit || s.cons.pc != Idle then None else Some(Now(s, Draining))
  }

  function Lose(s: State): State {
    s.(past := s.past.(lost := s.past.lost + 1))
  }

  /** Every buffer goes back; ranging over the queue waits for it to be closed. */
  function DrainStep(s: State): Option<State> {
    if s.cons.pc != Draining then None
    else if s.cons.cur.Some? then Some(Lose(PutBack(s)))
    else if s.chan.ready != [] then Some(Lose(PutBack(Pop(s))))
    else if s.prod.pc == Exited then Some(Now(s, Idle).(past := s.past.(drained := true)))
    else None
  }

  function Step(c: Config, s: State, a: Action): Option<State> {
    match a
    case TakeToken => TakeTokenStep(s)
    case Fill(n, err) => FillStep(c, s, n, err)
    case Send => SendStep(c, s)
    case SeeExit => SeeExitStep(s)
    case Begin(call) => BeginStep(s, call)
    case Refill => RefillStep(c, s)
    case Receive => ReceiveStep(s)
    case CopyOut => CopyOutStep(s)
    case SinkWrite(taken, fails) => SinkWriteStep(s, taken, fails)
    case BeginSkip(skip) => BeginSkipStep(s, skip)
    case SkipRound => SkipRoundStep(s)
    case Repay => RepayStep(c, s)
    case Return => ReturnStep(s)
    case StopBuffering => StopBufferingStep(s)
    case BeginAbandon => BeginAbandonStep(s)
    case Drain => DrainStep(s)
  }

  predicate OfProducer(a: Action) {
    a.TakeToken? || a.Fill? || a.Send? || a.SeeExit?
  }

  function Run(c: Config, s: State, acts: seq<Action>): Option<State>
    decreases |acts|
  {
    if acts == [] then Some(s)
    else
      match Step(c, s, acts[0])
      case None => None
      case Some(s') => Run(c, s', acts[1..])
  }
}
