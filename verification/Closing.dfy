/**
 The closing of a scheduler while others still call it.  Close gives up its lock around
 every stop and while it waits for the ticker; whoever looks for a downloader meanwhile
 filters the list of downloaders in place, over the very array that Close ranges over.
 */
module Closing {
  import opened Common

  type Id = nat

  /** Close has taken the i-th element of its range, which was `cur`, and waits for it to end. */
  datatype Phase = Stopping(i: nat, cur: Id) | Waiting | Done

  /**
   `list` is the scheduler's list and `view` what the range of Close reads: the front of
   the array under the list as long as that is `shared`.
   */
  datatype State = State(phase: Phase, list: seq<Id>, view: seq<Id>, shared: bool, closed: set<Id>, seen: set<Id>)

  datatype Action =
    | Exit                                   // the downloader being stopped ends
    | EndItself(id: Id)                      // some downloader ends unasked
    | Ensure(add: Option<Id>, moves: bool)   // a call of ensureDownloader; appending may move the list
    | Next
    | Finish

  /** The first critical section: the closed ones are gone and the first element has been taken. */
  function Start(ids: seq<Id>): State {
    State(if ids == [] then Waiting else Stopping(0, ids[0]), ids, ids, true, {}, set id | id in ids)
  }

  function Kept(list: seq<Id>, closed: set<Id>): seq<Id> {
    if list == [] then []
    else if list[0] in closed then Kept(list[1..], closed)
    else [list[0]] + Kept(list[1..], closed)
  }

  /** An array after `front` has been written over its beginning. */
  function Overwrite(view: seq<Id>, front: seq<Id>): (v: seq<Id>)
    ensures |v| == |view|
  {
    if |front| >= |view| then front[..|view|] else front + view[|front|..]
  }

  function EnsureStep(s: State, add: Option<Id>, moves: bool): Option<State> {
    if s.phase.Done? || (add.Some? && add.value in s.seen) then None
    else
      var kept := Kept(s.list, s.closed);
      var list := if add.Some? then kept + [add.value] else kept;
      Some(s.(list := list, view := if s.shared then Overwrite(s.view, list) else s.view,
           shared := s.shared && !(add.Some? && moves && |kept| >= |s.view|),
           seen := if add.Some? then s.seen + {add.value} else s.seen))
  }

  function NextStep(s: State): Option<State> {
    if !s.phase.Stopping? || s.phase.cur !in s.closed then None
    else
      var i := s.phase.i + 1;
      Some(s.(phase := if i < |s.view| then Stopping(i, s.view[i]) else Waiting))
  }

  function Step(s: State, a: Action): Option<State> {
    match a
    case Exit => if s.phase.Stopping? then Some(s.(closed := s.closed + {s.phase.cur})) else None
    case EndItself(id) => if id in s.list then Some(s.(closed := s.closed + {id})) else None
    case Ensure(add, moves) => EnsureStep(s, add, moves)
    case Next => NextStep(s)
    case Finish => if s.phase.Waiting? then Some(s.(phase := Done, list := [])) else None
  }

  function Run(s: State, acts: seq<Action>): Option<State>
    decreases |acts|
  {
    if acts == [] then Some(s)
    else
      match Step(s, acts[0])
      case None => None
      case Some(s') => Run(s', acts[1..])
  }

  /****************************** When it works ******************************/

  /** Schedules in which ensureDownloader is called meanwhile only if `calls` says so. */
  predicate Allowed(acts: seq<Action>, calls: bool) {
    calls || forall a :: a in acts ==> !a.Ensure?
  }

  /** A schedule on which Close comes to its end. */
  predicate Completes(ids: seq<Id>, acts: seq<Action>) {
    var s := Run(Start(ids), acts);
    s.Some? && s.value.phase == Done
  }

  predicate AllClosed(ids: seq<Id>, closed: set<Id>) {
    forall id :: id in ids ==> id in closed
  }

  predicate Distinct(ids: seq<Id>) {
    forall i, j :: 0 <= i < j < |ids| ==> ids[i] != ids[j]
  }

  /** The range has been followed faithfully so far. */
  predicate Followed(s: State, ids: seq<Id>) {
    match s.phase
    case Stopping(i, cur) => i < |ids| == |s.view| && cur == ids[i] && AllClosed(ids[..i], s.closed)
    case _ => AllClosed(ids, s.closed)
  }

  lemma FollowedStep(s: State, ids: seq<Id>, a: Action)
    requires Followed(s, ids) && Step(s, a).Some?
    requires |ids| <= 1 || (!a.Ensure? && s.view == ids)
    ensures Followed(Step(s, a).value, ids)
  {
    if s.phase.Stopping? {
      var i := s.phase.i;
      assert ids[..i + 1] == ids[..i] + [ids[i]];
      assert i + 1 == |ids| ==> ids[..i + 1] == ids;
    }
  }

  lemma {:induction false} FollowedRun(s: State, ids: seq<Id>, acts: seq<Action>)
    requires Followed(s, ids) && Run(s, acts).Some?
    requires |ids| <= 1 || (Allowed(acts, false) && s.view == ids)
    ensures Followed(Run(s, acts).value, ids)
    decreases |acts|
  {
    if acts != [] {
      assert acts[0] in acts;
      FollowedStep(s, ids, acts[0]);
      FollowedRun(Step(s, acts[0]).value, ids, acts[1..]);
    }
  }

  lemma {:induction false} NobodyNew(s: State, acts: seq<Action>)
    requires Run(s, acts).Some? && Allowed(acts, false)
    ensures Run(s, acts).value.seen == s.seen
    decreases |acts|
  {
    if acts != [] {
      assert acts[0] in acts;
      NobodyNew(Step(s, acts[0]).value, acts[1..]);
    }
  }

  /******************************* When not **********************************/

  /** From the i-th element on, with nobody calling in between. */
  function Rest(n: nat): seq<Action> {
    if n == 0 then [Exit, Next] else [Exit, Next] + Rest(n - 1)
  }

  lemma {:induction false} RestRuns(s: State, n: nat, id: Id)
    requires s.phase.Stopping? && s.phase.i + n + 1 == |s.view|
    requires s.phase.cur == s.view[s.phase.i] && id !in s.closed
    requires forall j :: s.phase.i <= j < |s.view| ==> s.view[j] != id
    ensures var t := Run(s, Rest(n));
      t.Some? && t.value.phase == Waiting && id !in t.value.closed && t.value.seen == s.seen
    decreases n
  {
    var acts := Rest(n);
    var s1 := Step(s, Exit).value;
    var s2 := Step(s1, Next).value;
    assert acts[0] == Exit && acts[1..][0] == Next;
    if n > 0 {
      assert acts[1..][1..] == Rest(n - 1);
      RestRuns(s2, n - 1, id);
    } else {
      assert acts[1..][1..] == [];
    }
    assert Run(s, acts) == Run(s2, acts[1..][1..]);
  }

  lemma {:induction false} RunConcat(s: State, a: seq<Action>, b: seq<Action>)
    ensures Run(s, a + b) == (match Run(s, a) case None => None case Some(t) => Run(t, b))
    decreases |a|
  {
    if a == [] {
      assert a + b == b;
    } else {
      assert (a + b)[1..] == a[1..] + b;
      if Step(s, a[0]).Some? {
        RunConcat(Step(s, a[0]).value, a[1..], b);
      }
    }
  }

  /** A number that nobody has. */
  function NewId(ids: seq<Id>): (n: Id)
    ensures forall id :: id in ids ==> id < n
  {
    if ids == [] then 0
    else
      var n := NewId(ids[1..]);
      assert forall id :: id in ids ==> id == ids[0] || id in ids[1..];
      if ids[0] < n then n else ids[0] + 1
  }

  lemma KeepsAll(list: seq<Id>, closed: set<Id>)
    requires forall id :: id in list ==> id !in closed
    ensures Kept(list, closed) == list
  {
  }

  lemma ThreeSteps(s0: State, s1: State, s2: State, s3: State, a: Action, b: Action, c: Action)
    requires Step(s0, a) == Some(s1) && Step(s1, b) == Some(s2) && Step(s2, c) == Some(s3)
    ensures Run(s0, [a, b, c]) == Some(s3)
  {
    assert [a, b, c][1..] == [b, c] && [b, c][1..] == [c] && [c][1..] == [];
    assert Run(s2, [c]) == Run(s3, []);
    assert Run(s1, [b, c]) == Run(s2, [c]);
  }

  /**
   The first downloader has ended, and a waiter's request takes it off the list and adds
   another: everyone moves up by one, and the range goes on behind the second.
   */
  lemma SecondSkipped(ids: seq<Id>) returns (acts: seq<Action>)
    requires Distinct(ids) && |ids| >= 2
    ensures Completes(ids, acts) && ids[1] !in Run(Start(ids), acts).value.closed
  {
    var newId := NewId(ids);
    var s0 := Start(ids);
    var s1 := Step(s0, Exit).value;
    KeepsAll(ids[1..], s1.closed);
    assert Kept(ids, s1.closed) == ids[1..];
    var s2 := Step(s1, Ensure(Some(newId), false)).value;
    assert s2.view == ids[1..] + [newId];
    var s3 := Step(s2, Next).value;
    var first := [Exit, Ensure(Some(newId), false), Next];
    ThreeSteps(s0, s1, s2, s3, Exit, Ensure(Some(newId), false), Next);
    RestRuns(s3, |ids| - 2, ids[1]);
    Concluded(s0, s3, first, Rest(|ids| - 2));
    acts := first + Rest(|ids| - 2) + [Finish];
  }

  lemma Concluded(s: State, t: State, a: seq<Action>, b: seq<Action>)
    requires Run(s, a) == Some(t) && Run(t, b).Some? && Run(t, b).value.phase == Waiting
    ensures var u := Run(t, b).value; Run(s, a + b + [Finish]) == Some(u.(phase := Done, list := []))
  {
    RunConcat(s, a, b);
    RunConcat(s, a + b, [Finish]);
    assert [Finish][1..] == [];
  }

  /** While Close waits for its ticker another downloader is started, which nobody stops. */
  lemma NewcomerLeft(ids: seq<Id>) returns (acts: seq<Action>)
    ensures Completes(ids, acts)
    ensures var s := Run(Start(ids), acts).value; !(s.seen <= s.closed)
  {
    var newId := NewId(ids);
    var s0 := Start(ids);
    var most := if ids == [] then [] else Rest(|ids| - 1);
    if ids != [] {
      assert forall j :: 0 <= j < |ids| ==> ids[j] in ids;
      RestRuns(s0, |ids| - 1, newId);
    }
    var s1 := Run(s0, most).value;
    var last := [Ensure(Some(newId), false)];
    assert last[1..] == [];
    Concluded(s1, s1, [], last);
    RunConcat(s0, most, last + [Finish]);
    assert [] + last + [Finish] == last + [Finish];
    acts := most + (last + [Finish]);
  }

  /****************************** Main theorem *******************************/

  /**
   Close is sure to close every downloader it found if and only if there is at most one or
   nobody looks for a downloader meanwhile, and to leave none behind if and only if nobody does.
   */
  lemma ClosingCondition(ids: seq<Id>, calls: bool)
    requires Distinct(ids)
    ensures (forall acts :: Allowed(acts, calls) && Completes(ids, acts) ==>
               AllClosed(ids, Run(Start(ids), acts).value.closed))
       <==> !calls || |ids| <= 1
    ensures (forall acts :: Allowed(acts, calls) && Completes(ids, acts) ==>
               var s := Run(Start(ids), acts).value; s.seen <= s.closed)
       <==> !calls
  {
    forall acts | Allowed(acts, calls) && Completes(ids, acts) && (!calls || |ids| <= 1)
      ensures var s := Run(Start(ids), acts).value;
        AllClosed(ids, s.closed) && (!calls ==> s.seen <= s.closed)
    {
      FollowedRun(Start(ids), ids, acts);
      if !calls {
        NobodyNew(Start(ids), acts);
      }
    }
    if calls {
      var left := NewcomerLeft(ids);
      if |ids| > 1 {
        var skipped := SecondSkipped(ids);
        assert ids[1] in ids;
      }
    }
  }
}
