/**
 The paged byte buffer between one writer and one reader.  Each step is one
 critical section or one unlocked copy, so every interleaving of the two sides is
 a run; what the reader gets is what the writer committed, in order.
 */
module PagedBuffer {
  import opened Common
  import opened Ranges

  type Page = seq<byte>

  /** The writer holds a page, then has copied its `data` behind the committed bytes. */
  datatype Writer = WIdle | WPage | WCopied(data: seq<byte>)

  /**
   The reader's call: where it began, how much it asked for and what it has so far.
   A copy to a sink asks for all there is (`None`), and the sink may take less.
   */
  datatype Reader =
    | RIdle
    | RCheck(start: nat, want: Option<nat>, got: seq<byte>)
    | RFind(start: nat, want: Option<nat>, got: seq<byte>)
    | RCopy(start: nat, want: Option<nat>, got: seq<byte>, page: nat, from: nat, len: nat)
    | RDone(start: nat, want: Option<nat>, got: seq<byte>, end: Ending)

  datatype Ending = Filled | AtEnd | SinkFailed

  datatype State = State(
    bufferSize: nat,
    pages: seq<Page>,
    size: nat,
    lastOffset: nat,
    out: nat,
    writer: Writer,
    reader: Reader,
    written: seq<byte>)     // all the data the writer has supplied and committed

  datatype Action =
    | GetWritePage(spare: Page)
    | CopyIn(fill: seq<byte>, nn: nat)
    | Commit
    | StartRead(want: Option<nat>)
    | CheckEof
    | FindPage
    | CopyOut(taken: nat, fails: bool)
    | FinishRead
    | Seek(abs: int)

  function Empty(bufferSize: nat): State {
    State(bufferSize, [], 0, 0, 0, WIdle, RIdle, [])
  }

  /********************************* Steps ***********************************/

  /** The page to write to: the last one while it has room, else a new one from the pool. */
  function GetWritePageStep(s: State, spare: Page): Option<State> {
    if s.writer != WIdle || |spare| != s.bufferSize then None
    else if |s.pages| > 0 && s.lastOffset < s.bufferSize then Some(s.(writer := WPage))
    else Some(s.(writer := WPage, pages := s.pages + [spare], lastOffset := 0))
  }

  /** The unlocked copy; a stream may scribble over the whole free part of the page. */
  function CopyInStep(s: State, fill: seq<byte>, nn: nat): Option<State> {
    if s.writer != WPage || s.pages == [] || nn > |fill| || s.lastOffset + |fill| != s.bufferSize
       || s.lastOffset > |s.pages[|s.pages| - 1]| then None
    else
      var last := s.pages[|s.pages| - 1];
      Some(s.(writer := WCopied(fill[..nn]), pages := s.pages[..|s.pages| - 1] + [last[..s.lastOffset] + fill]))
  }

  function CommitStep(s: State): Option<State> {
    if !s.writer.WCopied? then None
    else
      var data := s.writer.data;
      Some(s.(writer := WIdle, size := s.size + |data|, lastOffset := s.lastOffset + |data|,
           written := s.written + data))
  }

  predicate Wanting(want: Option<nat>, got: seq<byte>) {
    want.None? || |got| < want.value
  }

  function StartReadStep(s: State, want: Option<nat>): Option<State> {
    if s.reader != RIdle then None else Some(s.(reader := RCheck(s.out, want, [])))
  }

  function CheckEofStep(s: State): Option<State> {
    if !s.reader.RCheck? then None
    else
      var RCheck(start, want, got) := s.reader;
      if !Wanting(want, got) then Some(s.(reader := RDone(start, want, got, Filled)))
      else if s.out >= s.size then Some(s.(reader := RDone(start, want, got, AtEnd)))
      else Some(s.(reader := RFind(start, want, got)))
  }

  function FindPageStep(s: State): Option<State> {
    if !s.reader.RFind? || s.bufferSize == 0 then None
    else
      var RFind(start, want, got) := s.reader;
      var n, from := s.out / s.bufferSize, s.out % s.bufferSize;
      if n >= |s.pages| then None
      else
        var end := if n == |s.pages| - 1 then s.lastOffset else s.bufferSize;
        if from > end then None
        else Some(s.(reader := RCopy(start, want, got, n, from, end - from)))
  }

  /** A read copies all that fits; a sink takes what it likes of the page and may fail. */
  predicate MayTake(want: Option<nat>, got: seq<byte>, len: nat, taken: nat, fails: bool) {
    match want
    case Some(w) => !fails && |got| <= w && taken == Min(w - |got|, len)
    case None => taken <= len
  }

  function CopyOutStep(s: State, taken: nat, fails: bool): Option<State> {
    if !s.reader.RCopy? then None
    else
      var RCopy(start, want, got, n, from, len) := s.reader;
      if !MayTake(want, got, len, taken, fails) || n >= |s.pages| || from + len > |s.pages[n]| then None
      else
        var more := got + s.pages[n][from..from + taken];
        Some(s.(out := s.out + taken,
             reader := if fails then RDone(start, want, more, SinkFailed) else RCheck(start, want, more)))
  }

  function FinishReadStep(s: State): Option<State> {
    if !s.reader.RDone? then None else Some(s.(reader := RIdle))
  }

  /** A seek beyond what has been written is refused. */
  function SeekStep(s: State, abs: int): Option<State> {
    if s.reader != RIdle || abs < 0 || abs > s.size then None else Some(s.(out := abs))
  }

  function Step(s: State, a: Action): Option<State> {
    match a
    case GetWritePage(spare) => GetWritePageStep(s, spare)
    case CopyIn(fill, nn) => CopyInStep(s, fill, nn)
    case Commit => CommitStep(s)
    case StartRead(want) => StartReadStep(s, want)
    case CheckEof => CheckEofStep(s)
    case FindPage => FindPageStep(s)
    case CopyOut(taken, fails) => CopyOutStep(s, taken, fails)
    case FinishRead => FinishReadStep(s)
    case Seek(abs) => SeekStep(s, abs)
  }

  function Run(s: State, acts: seq<Action>): Option<State>
    decreases |acts|
  {
    if acts == [] then Some(s)
    else
      match Step(s, acts[0])
      case None => None
      case Some(s') => Run(s', acts[1..])
  }

  /******************************* Invariant *********************************/

  function Flat(pages: seq<Page>): seq<byte> {
    if pages == [] then [] else Flat(pages[..|pages| - 1]) + pages[|pages| - 1]
  }

  predicate Sized(pages: seq<Page>, n: nat) {
    forall i :: 0 <= i < |pages| ==> |pages[i]| == n
  }

  lemma {:induction false} FlatLength(pages: seq<Page>, n: nat)
    requires Sized(pages, n)
    ensures |Flat(pages)| == |pages| * n
    decreases |pages|
  {
    if pages != [] {
      FlatLength(pages[..|pages| - 1], n);
      Distribute(|pages|, n);
    }
  }

  lemma Distribute(x: nat, b: nat)
    requires x > 0
    ensures x * b == (x - 1) * b + b
  {
  }

  /** The k-th page is the k-th stretch of the flat bytes. */
  lemma FlatPage(pages: seq<Page>, n: nat, k: nat)
    requires Sized(pages, n) && k < |pages|
    ensures k * n + n <= |Flat(pages)|
    ensures Flat(pages)[k * n..k * n + n] == pages[k]
  {
    FlatLength(pages[..k], n);
    FlatPageAt(pages, n, k);
  }

  /** Page k begins where the pages before it end. */
  lemma {:induction false} FlatPageAt(pages: seq<Page>, n: nat, k: nat)
    requires Sized(pages, n) && k < |pages|
    ensures var at := |Flat(pages[..k])|;
      at + n <= |Flat(pages)| && Flat(pages)[at..at + n] == pages[k]
    decreases |pages|
  {
    var front := pages[..|pages| - 1];
    var at := |Flat(pages[..k])|;
    if k < |front| {
      FlatPageAt(front, n, k);
      assert front[..k] == pages[..k];
      SliceOfFront(Flat(front), pages[|front|], at, at + n);
    } else {
      assert pages[..k] == front;
      SliceOfBack(Flat(front), pages[|front|]);
    }
  }

  lemma SliceOfFront<T>(a: seq<T>, b: seq<T>, i: nat, j: nat)
    requires i <= j <= |a|
    ensures (a + b)[i..j] == a[i..j]
  {
  }

  lemma SliceOfBack<T>(a: seq<T>, b: seq<T>)
    ensures (a + b)[|a|..|a| + |b|] == b
  {
  }

  function Front(s: State): seq<Page>
    requires s.pages != []
  {
    s.pages[..|s.pages| - 1]
  }

  ghost predicate PagesOK(s: State) {
    && s.bufferSize > 0
    && Sized(s.pages, s.bufferSize)
    && s.lastOffset <= s.bufferSize
    && (s.pages == [] ==> s.size == 0)
    && (s.pages != [] ==> s.size == |Flat(Front(s))| + s.lastOffset)
    && s.size <= |Flat(s.pages)|
    && s.written == Flat(s.pages)[..s.size]
  }

  ghost predicate WriterOK(s: State)
    requires PagesOK(s)
  {
    && (s.writer != WIdle ==> s.pages != [] && s.lastOffset < s.bufferSize)
    && (s.writer.WCopied? ==>
          var last, data := s.pages[|s.pages| - 1], s.writer.data;
          s.lastOffset + |data| <= |last| && last[s.lastOffset..s.lastOffset + |data|] == data)
  }

  predicate Within(want: Option<nat>, got: seq<byte>) {
    want.Some? ==> |got| <= want.value
  }

  ghost predicate Got(s: State, start: nat, got: seq<byte>) {
    s.out == start + |got| && s.out <= |s.written| && got == s.written[start..s.out]
  }

  ghost predicate ReaderOK(s: State) {
    && s.out <= s.size
    && match s.reader
       case RIdle => true
       case RCheck(start, want, got) => Got(s, start, got) && Within(want, got)
       case RFind(start, want, got) => Got(s, start, got) && Wanting(want, got) && s.out < s.size
       case RCopy(start, want, got, n, from, len) =>
         && Got(s, start, got) && Wanting(want, got)
         && n < |s.pages| && from + len <= s.bufferSize && len > 0
         && s.out + len <= s.size && s.out == n * s.bufferSize + from
       case RDone(start, want, got, end) =>
         && Got(s, start, got) && Within(want, got)
         && (end == Filled ==> want == Some(|got|))
         && (end == SinkFailed ==> want == None)
  }

  ghost predicate Inv(s: State) {
    |s.written| == s.size && PagesOK(s) && WriterOK(s) && ReaderOK(s)
  }

  /** More committed bytes and changed free space do not disturb the reader. */
  lemma ReaderFrame(s: State, s': State)
    requires Inv(s) && ReaderOK(s)
    requires s'.reader == s.reader && s'.out == s.out && s'.bufferSize == s.bufferSize
    requires s.size <= s'.size == |s'.written| && s.written <= s'.written && |s.pages| <= |s'.pages|
    ensures ReaderOK(s')
  {
    assert forall a, b :: 0 <= a <= b <= |s.written| ==> s'.written[a..b] == s.written[a..b];
  }

  /** The flat bytes up to and without the last page. */
  lemma FlatLast(pages: seq<Page>, front: seq<Page>, last: Page)
    requires pages == front + [last]
    ensures Flat(pages) == Flat(front) + last
  {
    assert pages[..|pages| - 1] == front;
  }

  lemma GetWritePageKeeps(s: State, spare: Page)
    requires Inv(s) && GetWritePageStep(s, spare).Some?
    ensures Inv(GetWritePageStep(s, spare).value)
  {
    var s' := GetWritePageStep(s, spare).value;
    if s'.pages != s.pages {
      NewPageKeeps(s, s', spare);
    }
    ReaderFrame(s, s');
  }

  /** A page is added only when the last one is full. */
  lemma NewPageKeeps(s: State, s': State, spare: Page)
    requires PagesOK(s) && |s.written| == s.size && |spare| == s.bufferSize
    requires s.pages != [] ==> s.lastOffset == s.bufferSize
    requires s'.pages == s.pages + [spare] && s'.lastOffset == 0 && s'.size == s.size
    requires s'.bufferSize == s.bufferSize && s'.written == s.written
    ensures PagesOK(s')
  {
    FlatLast(s'.pages, s.pages, spare);
    assert Front(s') == s.pages;
    if s.pages != [] {
      FlatLast(s.pages, Front(s), s.pages[|s.pages| - 1]);
    }
  }

  lemma CopyInBytes(front: seq<byte>, last: Page, fill: seq<byte>, lo: nat)
    requires lo <= |last|
    ensures (front + (last[..lo] + fill))[..|front| + lo] == (front + last)[..|front| + lo]
  {
  }

  lemma CopyInKeeps(s: State, fill: seq<byte>, nn: nat)
    requires Inv(s) && CopyInStep(s, fill, nn).Some?
    ensures Inv(CopyInStep(s, fill, nn).value)
  {
    var s' := CopyInStep(s, fill, nn).value;
    CopyInPages(s, s', fill);
    ReaderFrame(s, s');
  }

  lemma CopyInPages(s: State, s': State, fill: seq<byte>)
    requires PagesOK(s) && s.pages != [] && s.lastOffset + |fill| == s.bufferSize
    requires s'.pages == Front(s) + [s.pages[|s.pages| - 1][..s.lastOffset] + fill]
    requires s'.bufferSize == s.bufferSize && s'.size == s.size && s'.lastOffset == s.lastOffset
    requires s'.written == s.written
    ensures PagesOK(s')
  {
    var front, last := Front(s), s.pages[|s.pages| - 1];
    FlatLast(s.pages, front, last);
    FlatLast(s'.pages, front, last[..s.lastOffset] + fill);
    CopyInBytes(Flat(front), last, fill, s.lastOffset);
    assert Front(s') == front;
  }

  lemma CommitKeeps(s: State)
    requires Inv(s) && CommitStep(s).Some?
    ensures Inv(CommitStep(s).value)
  {
    var s' := CommitStep(s).value;
    assert Flat(s.pages) == Flat(Front(s)) + s.pages[|s.pages| - 1];
    assert Flat(s.pages)[..s'.size] == s'.written;
    ReaderFrame(s, s');
  }

  /** A position below `size` lies in a page, and below `lastOffset` if it is the last one. */
  lemma PageIndex(out: nat, b: nat, pages: nat, last: nat)
    requires b > 0 && pages > 0 && last <= b && out < (pages - 1) * b + last
    ensures out == (out / b) * b + out % b
    ensures out / b < pages && (out / b == pages - 1 ==> out % b < last)
    ensures out / b < pages - 1 ==> (out / b) * b + b <= (pages - 1) * b
  {
    var n := out / b;
    DivMod(out, b);
    Distribute(pages, b);
    MulLess(n, pages, b);
    if n < pages - 1 {
      MulMono(n + 1, pages - 1, b);
      Distribute(n + 1, b);
    }
  }

  lemma DivMod(x: nat, b: nat)
    requires b > 0
    ensures x == (x / b) * b + x % b && 0 <= x / b && 0 <= x % b < b
  {
  }

  lemma MulLess(x: nat, y: nat, b: nat)
    requires x * b < y * b
    ensures x < y
  {
    if y <= x {
      MulMono(y, x, b);
    }
  }

  lemma FindPageKeeps(s: State)
    requires Inv(s) && s.reader.RFind?
    ensures FindPageStep(s).Some? && Inv(FindPageStep(s).value)
    ensures FindPageStep(s).value.reader.RCopy? && FindPageStep(s).value.reader.len > 0
  {
    FlatLength(Front(s), s.bufferSize);
    PageIndex(s.out, s.bufferSize, |s.pages|, s.lastOffset);
    var s' := FindPageStep(s).value;
    assert PagesOK(s');
  }

  lemma MulMono(x: nat, y: nat, b: nat)
    requires x <= y
    ensures x * b <= y * b
  {
  }

  /** What the copy takes is the committed stretch at `out`. */
  lemma PageBytes(s: State, n: nat, from: nat, taken: nat)
    requires Inv(s) && n < |s.pages| && from + taken <= s.bufferSize
    requires s.out == n * s.bufferSize + from && s.out + taken <= s.size
    ensures s.pages[n][from..from + taken] == s.written[s.out..s.out + taken]
  {
    var at := n * s.bufferSize;
    FlatPage(s.pages, s.bufferSize, n);
    SliceOfSlice(Flat(s.pages), at, at + s.bufferSize, from, from + taken);
    SliceOfSlice(Flat(s.pages), 0, s.size, s.out, s.out + taken);
    assert Flat(s.pages)[..s.size] == Flat(s.pages)[0..s.size];
  }

  lemma SliceOfSlice<T>(a: seq<T>, i: nat, j: nat, x: nat, y: nat)
    requires i <= j <= |a| && x <= y <= j - i
    ensures a[i..j][x..y] == a[i + x..i + y]
  {
    var l, r := a[i..j][x..y], a[i + x..i + y];
    forall k | 0 <= k < |l|
      ensures l[k] == r[k]
    {
      assert l[k] == a[i..j][x + k];
    }
  }

  lemma CopyOutKeeps(s: State, taken: nat, fails: bool)
    requires Inv(s) && CopyOutStep(s, taken, fails).Some?
    ensures Inv(CopyOutStep(s, taken, fails).value)
  {
    var RCopy(start, want, got, n, from, len) := s.reader;
    var s' := CopyOutStep(s, taken, fails).value;
    PageBytes(s, n, from, taken);
    Adjoin(s.written, start, s.out, s.out + taken);
    assert Got(s', start, got + s.pages[n][from..from + taken]);
    ReaderStepKeeps(s, s');
  }

  lemma Adjoin(b: seq<byte>, x: nat, y: nat, z: nat)
    requires x <= y <= z <= |b|
    ensures b[x..y] + b[y..z] == b[x..z]
  {
  }

  /** The steps of the reader that touch nothing but its own state. */
  lemma ReaderStepKeeps(s: State, s': State)
    requires Inv(s) && ReaderOK(s')
    requires s' == s.(reader := s'.reader, out := s'.out)
    ensures Inv(s')
  {
  }

  lemma CheckEofKeeps(s: State)
    requires Inv(s) && CheckEofStep(s).Some?
    ensures Inv(CheckEofStep(s).value)
  {
    ReaderStepKeeps(s, CheckEofStep(s).value);
  }

  lemma StepKeeps(s: State, a: Action)
    requires Inv(s) && Step(s, a).Some?
    ensures Inv(Step(s, a).value)
  {
    var s' := Step(s, a).value;
    match a
    case GetWritePage(spare) => GetWritePageKeeps(s, spare);
    case CopyIn(fill, nn) => CopyInKeeps(s, fill, nn);
    case Commit => CommitKeeps(s);
    case StartRead(want) => ReaderStepKeeps(s, s');
    case CheckEof => CheckEofKeeps(s);
    case FindPage => FindPageKeeps(s);
    case CopyOut(taken, fails) => CopyOutKeeps(s, taken, fails);
    case FinishRead => ReaderStepKeeps(s, s');
    case Seek(abs) => ReaderStepKeeps(s, s');
  }

  lemma {:induction false} RunKeeps(s: State, acts: seq<Action>)
    requires Inv(s) && Run(s, acts).Some?
    ensures Inv(Run(s, acts).value)
    decreases |acts|
  {
    if acts != [] {
      StepKeeps(s, acts[0]);
      RunKeeps(Step(s, acts[0]).value, acts[1..]);
    }
  }

  lemma {:induction false} RunStep(s: State, acts: seq<Action>, a: Action)
    ensures Run(s, acts + [a]) == (match Run(s, acts) case None => None case Some(t) => Step(t, a))
    decreases |acts|
  {
    if acts == [] {
      assert [a][1..] == [];
    } else {
      assert (acts + [a])[1..] == acts[1..] + [a];
      if Step(s, acts[0]).Some? {
        RunStep(Step(s, acts[0]).value, acts[1..], a);
      }
    }
  }

  predicate OfWriter(a: Action) {
    a.GetWritePage? || a.CopyIn? || a.Commit?
  }

  /**
   The call that has ended looked at the size in action i, when nothing beyond its
   position had been committed; since then only the writer has moved.
   */
  ghost predicate SawTheEnd(s0: State, acts: seq<Action>, i: nat)
    requires i < |acts| && Run(s0, acts).Some?
  {
    var s := Run(s0, acts).value;
    && acts[i] == CheckEof && (forall j :: i < j < |acts| ==> OfWriter(acts[j]))
    && Run(s0, acts[..i]).Some?
    && var t := Run(s0, acts[..i]).value;
      t.size <= t.out == s.out && s.reader.RDone? && t.reader == RCheck(s.reader.start, s.reader.want, s.reader.got)
  }

  lemma {:induction false} EndWasSeen(s0: State, acts: seq<Action>) returns (i: nat)
    requires s0.reader == RIdle && Run(s0, acts).Some?
    requires var r := Run(s0, acts).value.reader; r.RDone? && r.end == AtEnd
    ensures i < |acts| && SawTheEnd(s0, acts, i)
    decreases |acts|
  {
    var front, a := acts[..|acts| - 1], acts[|acts| - 1];
    assert acts == front + [a];
    RunStep(s0, front, a);
    if a == CheckEof {
      i := |front|;
    } else {
      assert OfWriter(a);
      i := EndWasSeen(s0, front);
      assert front[..i] == acts[..i];
    }
  }

  /***************************** Main theorems *******************************/

  /**
   In every run the buffer is a FIFO: a finished call delivered exactly the committed bytes
   from where it began and never more: all it asked for, or all that was committed when it
   last looked.  Only a sink can fail.
   */
  lemma ReadsWhatWasWritten(bufferSize: nat, acts: seq<Action>)
    requires bufferSize > 0 && Run(Empty(bufferSize), acts).Some?
    ensures var s := Run(Empty(bufferSize), acts).value;
      s.reader.RDone? ==>
        && s.out == s.reader.start + |s.reader.got| <= |s.written|
        && s.reader.got == s.written[s.reader.start..s.out]
        && Within(s.reader.want, s.reader.got)
        && (s.reader.end == Filled ==> s.reader.want == Some(|s.reader.got|))
        && (s.reader.end == AtEnd ==> exists i: nat :: i < |acts| && SawTheEnd(Empty(bufferSize), acts, i))
        && (s.reader.end == SinkFailed ==> s.reader.want == None)
  {
    RunKeeps(Empty(bufferSize), acts);
    var r := Run(Empty(bufferSize), acts).value.reader;
    if r.RDone? && r.end == AtEnd {
      var i := EndWasSeen(Empty(bufferSize), acts);
    }
  }

  /** In every run the sizes agree, and a reader that is behind finds a non-empty page of committed bytes. */
  lemma SizesAgree(bufferSize: nat, acts: seq<Action>)
    requires bufferSize > 0 && Run(Empty(bufferSize), acts).Some?
    ensures var s := Run(Empty(bufferSize), acts).value;
      && s.size == |s.written|
      && (s.pages != [] ==> s.size == (|s.pages| - 1) * bufferSize + s.lastOffset)
      && (s.reader.RFind? ==> FindPageStep(s).Some? && FindPageStep(s).value.reader.len > 0)
      && (s.reader.RCopy? && s.reader.want.Some? ==> exists n :: CopyOutStep(s, n, false).Some? && n > 0)
  {
    RunKeeps(Empty(bufferSize), acts);
    RunSameSize(Empty(bufferSize), acts);
    var s := Run(Empty(bufferSize), acts).value;
    if s.pages != [] {
      FlatLength(Front(s), bufferSize);
    }
    if s.reader.RFind? {
      FindPageKeeps(s);
    }
    if s.reader.RCopy? && s.reader.want.Some? {
      assert CopyOutStep(s, Min(s.reader.want.value - |s.reader.got|, s.reader.len), false).Some?;
    }
  }

  lemma {:induction false} RunSameSize(s: State, acts: seq<Action>)
    requires Run(s, acts).Some?
    ensures Run(s, acts).value.bufferSize == s.bufferSize
    decreases |acts|
  {
    if acts != [] {
      RunSameSize(Step(s, acts[0]).value, acts[1..]);
    }
  }

  /***************************** What can be done ****************************/

  ghost predicate Reached(s: State) {
    exists acts :: Run(Empty(s.bufferSize), acts) == Some(s) && s.bufferSize > 0
  }

  lemma ReachedInv(s: State)
    requires Reached(s)
    ensures Inv(s)
  {
    var acts :| Run(Empty(s.bufferSize), acts) == Some(s);
    RunKeeps(Empty(s.bufferSize), acts);
  }

  /** Some schedule leads from `s` to `s'`. */
  ghost predicate Leads(s: State, s': State) {
    exists acts :: Run(s, acts) == Some(s')
  }

  lemma Then(s: State, m: State, a: Action, s': State)
    requires Leads(s, m) && Step(m, a) == Some(s')
    ensures Leads(s, s')
  {
    var acts :| Run(s, acts) == Some(m);
    RunStep(s, acts, a);
    assert Run(s, acts + [a]) == Some(s');
  }

  /** A writer with data that fits the free part of the last page, or a new one, adds just that data. */
  lemma WriterAdds(s: State, spare: Page, data: seq<byte>) returns (s': State)
    requires Reached(s) && s.writer == WIdle && |spare| == s.bufferSize
    requires |data| <= if s.pages != [] && s.lastOffset < s.bufferSize then s.bufferSize - s.lastOffset else s.bufferSize
    ensures Leads(s, s') && s'.writer == WIdle && s'.written == s.written + data && s'.size == s.size + |data|
    ensures s'.out == s.out && s'.reader == s.reader
  {
    ReachedInv(s);
    assert Run(s, []) == Some(s);
    var s1 := GetWritePageStep(s, spare).value;
    GetWritePageKeeps(s, spare);
    Then(s, s, GetWritePage(spare), s1);
    s' := Commits(s, s1, data);
  }

  lemma Commits(s: State, s1: State, data: seq<byte>) returns (s': State)
    requires Leads(s, s1) && Inv(s1) && s1.writer == WPage && s1.lastOffset + |data| <= s1.bufferSize
    ensures Leads(s, s') && s'.writer == WIdle && s'.written == s1.written + data && s'.size == s1.size + |data|
    ensures s'.out == s1.out && s'.reader == s1.reader
  {
    var fill := data + seq(s1.bufferSize - s1.lastOffset - |data|, _ => 0);
    assert fill[..|data|] == data;
    var s2 := CopyInStep(s1, fill, |data|).value;
    Then(s, s1, CopyIn(fill, |data|), s2);
    s' := CommitStep(s2).value;
    Then(s, s2, Commit, s');
  }

  /** A seek is possible exactly within what has been committed, and the next read begins there. */
  lemma SeekThenRead(s: State, abs: int, want: Option<nat>)
    requires Reached(s) && s.reader == RIdle
    ensures Step(s, Seek(abs)).Some? <==> 0 <= abs <= |s.written|
    ensures 0 <= abs <= |s.written| ==>
      Run(s, [Seek(abs), StartRead(want)]) == Some(s.(out := abs, reader := RCheck(abs, want, [])))
  {
    ReachedInv(s);
    if 0 <= abs <= |s.written| {
      var s1 := s.(out := abs);
      assert Run(s, []) == Some(s);
      RunStep(s, [], Seek(abs));
      RunStep(s, [Seek(abs)], StartRead(want));
      assert [] + [Seek(abs)] == [Seek(abs)];
      assert [Seek(abs)] + [StartRead(want)] == [Seek(abs), StartRead(want)];
    }
  }

  /** One page more: what fits of it is taken. */
  lemma NextPage(s: State, s1: State) returns (s': State)
    requires Leads(s, s1) && Inv(s1) && s1.reader.RFind? && s1.reader.want.Some?
    ensures Leads(s, s') && Inv(s') && s' == s1.(out := s'.out, reader := s'.reader) && s'.out > s1.out
    ensures s'.reader.RCheck? && s'.reader.start == s1.reader.start && s'.reader.want == s1.reader.want
  {
    FindPageKeeps(s1);
    var s2 := FindPageStep(s1).value;
    Then(s, s1, FindPage, s2);
    s' := Takes(s, s2);
  }

  lemma Takes(s: State, s2: State) returns (s': State)
    requires Leads(s, s2) && Inv(s2) && s2.reader.RCopy? && s2.reader.want.Some?
    ensures Leads(s, s') && Inv(s') && s' == s2.(out := s'.out, reader := s'.reader) && s'.out > s2.out
    ensures s'.reader.RCheck? && s'.reader.start == s2.reader.start && s'.reader.want == s2.reader.want
  {
    var n := Min(s2.reader.want.value - |s2.reader.got|, s2.reader.len);
    s' := CopyOutStep(s2, n, false).value;
    CopyOutKeeps(s2, n, false);
    Then(s, s2, CopyOut(n, false), s');
  }

  lemma Progress(s: State)
    requires Inv(s) && (s.reader.RCheck? || s.reader.RDone?)
    ensures s.out == s.reader.start + |s.reader.got| <= |s.written| == s.size
    ensures s.reader.got == s.written[s.reader.start..s.out]
    ensures s.reader.want.Some? ==> |s.reader.got| <= s.reader.want.value
  {
  }

  /** A reader finds all that is committed of the page it is at, and takes of it all that it wants. */
  lemma WholePage(s: State)
    requires Reached(s)
    ensures s.reader.RFind? ==>
      var r := Step(s, FindPage);
      r.Some? && r.value.reader.RCopy? && r.value.reader.page == s.out / s.bufferSize
      && s.out + r.value.reader.len == Min(|s.written|, (s.out / s.bufferSize + 1) * s.bufferSize)
    ensures s.reader.RCopy? && s.reader.want.Some? ==>
      forall n, fails :: Step(s, CopyOut(n, fails)).Some? <==>
        !fails && n == Min(s.reader.want.value - |s.reader.got|, s.reader.len)
  {
    ReachedInv(s);
    if s.reader.RFind? {
      FindPageKeeps(s);
      FlatLength(Front(s), s.bufferSize);
      PageIndex(s.out, s.bufferSize, |s.pages|, s.lastOffset);
      PageEnd(s.out, s.bufferSize, |s.pages|, s.lastOffset);
    }
  }

  lemma PageEnd(out: nat, b: nat, pages: nat, last: nat)
    requires b > 0 && pages > 0 && last <= b && out < (pages - 1) * b + last
    ensures var n := out / b;
      out - out % b + (if n == pages - 1 then last else b) == Min((pages - 1) * b + last, (n + 1) * b)
  {
    var n := out / b;
    PageIndex(out, b, pages, last);
    Distribute(n + 1, b);
    if n < pages - 1 {
      MulMono(n + 1, pages - 1, b);
    }
  }

  /** A read that has begun can go on, without the writer, to all that it wants of what is there. */
  lemma {:induction false} ReadGoesOn(s: State, s1: State) returns (s': State)
    requires Leads(s, s1) && Inv(s1) && s1.reader.RCheck? && s1.reader.want.Some?
    ensures Leads(s, s') && Inv(s') && s' == s1.(out := s'.out, reader := s'.reader) && s'.reader.RDone?
    ensures s'.reader.start == s1.reader.start && s'.reader.want == s1.reader.want
    ensures |s'.reader.got| == Min(s1.reader.want.value, |s1.written| - s1.reader.start)
    ensures s'.reader.end == if |s'.reader.got| == s1.reader.want.value then Filled else AtEnd
    decreases |s1.written| - s1.out
  {
    Progress(s1);
    var s2 := CheckEofStep(s1).value;
    Then(s, s1, CheckEof, s2);
    CheckEofKeeps(s1);
    if s2.reader.RDone? {
      s' := s2;
    } else {
      var s3 := NextPage(s, s2);
      Progress(s3);
      s' := ReadGoesOn(s, s3);
    }
  }

  /** So a read alone gets the committed bytes from its position on, as many as it wants or all there are. */
  lemma ReadCompletes(s: State, want: nat) returns (s': State)
    requires Reached(s) && s.reader == RIdle
    ensures Leads(s, s') && s'.written == s.written && s'.reader.RDone?
    ensures s.out <= |s.written|
    ensures var n := Min(want, |s.written| - s.out);
      s'.reader.got == s.written[s.out..s.out + n] && s'.out == s.out + n
      && s'.reader.end == if n == want then Filled else AtEnd
  {
    ReachedInv(s);
    assert Run(s, []) == Some(s);
    var s1 := StartReadStep(s, Some(want)).value;
    Then(s, s, StartRead(Some(want)), s1);
    s' := ReadGoesOn(s, s1);
    Progress(s');
  }
}
