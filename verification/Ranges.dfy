/**
 The sparse-range algebra: a sorted, coalesced list of byte ranges that must
 behave like a plain set of byte positions.

 `Covers(rs, b)` is the byte-set view every other module relies on.  `Canonical`
 is the shape that `RangeList.Insert` keeps: non-empty ranges, in order, with a
 gap between neighbours.
 */
module Ranges {

  datatype Range = Range(pos: int, size: int) {

    function End(): int {
      pos + size
    }

    predicate IsEmpty() {
      size <= 0
    }

    predicate Has(b: int) {
      pos <= b < End()
    }

    /** Cuts the range at `offset`; a range that starts beyond it becomes the zero range. */
    function Clip(offset: int): (r: Range)
      ensures pos <= offset ==> forall b :: r.Has(b) <==> Has(b) && b < offset
      ensures pos <= offset ==> r.pos == pos && r.End() <= offset
      ensures pos > offset && !IsEmpty() ==> r.IsEmpty()
    {
      if End() <= offset then this
      else
        var s := size - (End() - offset);
        if s < 0 then Range(0, 0) else Range(pos, s)
    }

    /** The common part of two ranges; empty when there is none. */
    function Intersection(b: Range): (r: Range)
      ensures forall x :: r.Has(x) <==> Has(x) && b.Has(x)
      ensures !r.IsEmpty() ==> r.pos == Max(pos, b.pos) && r.End() == Min(End(), b.End())
    {
      if (b.pos <= pos < b.End()) || (pos <= b.pos < End()) then
        var p := Max(pos, b.pos);
        Range(p, Min(End(), b.End()) - p)
      else
        Range(0, 0)
    }
  }

  function Max(a: int, b: int): int {
    if a >= b then a else b
  }

  function Min(a: int, b: int): int {
    if a <= b then a else b
  }

  /****************************** Byte-set view ******************************/

  ghost predicate Covers(rs: seq<Range>, b: int) {
    exists i :: 0 <= i < |rs| && rs[i].Has(b)
  }

  ghost predicate SameBytes(a: seq<Range>, b: seq<Range>) {
    forall x :: Covers(a, x) <==> Covers(b, x)
  }

  ghost predicate CoversAll(rs: seq<Range>, lo: int, hi: int) {
    forall b :: lo <= b < hi ==> Covers(rs, b)
  }

  predicate NonEmpty(rs: seq<Range>) {
    forall i :: 0 <= i < |rs| ==> rs[i].size > 0
  }

  /** Non-empty, in order, and separated: the only shape `Insert` produces. */
  predicate Canonical(rs: seq<Range>) {
    && NonEmpty(rs)
    && forall i, j :: 0 <= i < j < |rs| ==> Apart(rs, i, j)
  }

  /** A gap of at least one byte lies between the ranges at `i` and `j`. */
  predicate Apart(rs: seq<Range>, i: int, j: int)
    requires 0 <= i < j < |rs|
  {
    rs[i].End() < rs[j].pos
  }

  lemma CanonicalSplit(rs: seq<Range>, k: int)
    requires Canonical(rs) && 0 <= k <= |rs|
    ensures Canonical(rs[..k]) && Canonical(rs[k..])
  {
    forall i, j | 0 <= i < j < k ensures Apart(rs[..k], i, j) {
      assert Apart(rs, i, j);
    }
    forall i, j | 0 <= i < j < |rs| - k ensures Apart(rs[k..], i, j) {
      assert Apart(rs, k + i, k + j);
    }
  }

  lemma CanonicalConcat(a: seq<Range>, b: seq<Range>)
    requires Canonical(a) && Canonical(b)
    requires a != [] && b != [] ==> a[|a| - 1].End() < b[0].pos
    ensures Canonical(a + b)
  {
    var c := a + b;
    forall i, j | 0 <= i < j < |c| ensures Apart(c, i, j) {
      if j < |a| {
        assert Apart(a, i, j);
      } else if i >= |a| {
        assert Apart(b, i - |a|, j - |a|);
      } else {
        assert i < |a| - 1 ==> Apart(a, i, |a| - 1);
        assert 0 < j - |a| ==> Apart(b, 0, j - |a|);
      }
    }
  }

  function Span(r: Range): (s: set<int>)
    ensures forall b :: b in s <==> r.Has(b)
  {
    set b | r.pos <= b < r.End() && r.Has(b)
  }

  ghost function Bytes(rs: seq<Range>): set<int> {
    if rs == [] then {} else Bytes(rs[..|rs| - 1]) + Span(rs[|rs| - 1])
  }

  lemma CoversConcat(a: seq<Range>, b: seq<Range>, x: int)
    ensures Covers(a + b, x) <==> Covers(a, x) || Covers(b, x)
  {
    if Covers(a, x) {
      var i :| 0 <= i < |a| && a[i].Has(x);
      assert (a + b)[i].Has(x);
    }
    if Covers(b, x) {
      var i :| 0 <= i < |b| && b[i].Has(x);
      assert (a + b)[|a| + i].Has(x);
    }
  }

  lemma {:induction false} BytesCovers(rs: seq<Range>, x: int)
    ensures x in Bytes(rs) <==> Covers(rs, x)
  {
    if rs != [] {
      var front, last := rs[..|rs| - 1], rs[|rs| - 1];
      BytesCovers(front, x);
      CoversConcat(front, [last], x);
      assert rs == front + [last];
      assert Covers([last], x) <==> [last][0].Has(x);
    }
  }

  lemma {:induction false} SpanSize(r: Range)
    requires r.size >= 0
    ensures |Span(r)| == r.size
    decreases r.size
  {
    if r.size == 0 {
      assert Span(r) == {};
    } else {
      var s := Range(r.pos, r.size - 1);
      SpanSize(s);
      assert Span(r) == Span(s) + {r.End() - 1};
    }
  }

  /********************** Uniqueness of the canonical form *******************/

  lemma CoversHead(rs: seq<Range>, x: int)
    requires Canonical(rs) && rs != []
    ensures Covers(rs, x) && x <= rs[0].End() ==> rs[0].Has(x)
    ensures Covers(rs, x) <==> rs[0].Has(x) || Covers(rs[1..], x)
    ensures Covers(rs[1..], x) ==> rs[0].End() < x
  {
    CoversConcat(rs[..1], rs[1..], x);
    assert rs == rs[..1] + rs[1..];
    assert Covers(rs[..1], x) <==> rs[..1][0].Has(x);
    if Covers(rs[1..], x) {
      var k :| 0 <= k < |rs| - 1 && rs[1..][k].Has(x);
      assert Apart(rs, 0, k + 1);
    }
  }

  lemma CoversStart(rs: seq<Range>)
    requires NonEmpty(rs) && rs != []
    ensures Covers(rs, rs[0].pos)
  {
    assert rs[0].Has(rs[0].pos);
  }

  /** Two canonical lists with the same bytes are the same list. */
  lemma {:induction false} CanonicalUnique(a: seq<Range>, b: seq<Range>)
    requires Canonical(a) && Canonical(b) && SameBytes(a, b)
    ensures a == b
    decreases |a|
  {
    if a == [] {
      if b != [] {
        CoversStart(b);
        assert false;
      }
    } else {
      assert a[0].Has(a[0].pos);
      assert Covers(b, a[0].pos);
      assert b[0].Has(b[0].pos);
      CoversHead(a, b[0].pos);
      CoversHead(b, a[0].pos);
      HeadsAgree(a, b);
      forall x ensures Covers(a[1..], x) <==> Covers(b[1..], x) {
        CoversHead(a, x);
        CoversHead(b, x);
      }
      CanonicalSplit(a, 1);
      CanonicalSplit(b, 1);
      CanonicalUnique(a[1..], b[1..]);
      assert a == [a[0]] + a[1..] && b == [b[0]] + b[1..];
    }
  }

  lemma HeadsAgree(a: seq<Range>, b: seq<Range>)
    requires Canonical(a) && Canonical(b) && SameBytes(a, b) && a != [] && b != []
    ensures a[0] == b[0]
  {
    var p, q := a[0].pos, b[0].pos;
    assert a[0].Has(p) && b[0].Has(q);
    assert Covers(a, p) && Covers(b, q) && Covers(b, p) && Covers(a, q);
    CoversHead(a, a[0].End());
    CoversHead(b, b[0].End());
    assert !Covers(b, a[0].End()) && !Covers(a, b[0].End());
    FirstByte(a, q);
    FirstByte(b, p);
    if a[0].End() < b[0].End() {
      assert b[0].Has(a[0].End());
    } else if b[0].End() < a[0].End() {
      assert a[0].Has(b[0].End());
    }
  }

  lemma FirstByte(rs: seq<Range>, x: int)
    requires Canonical(rs) && Covers(rs, x)
    ensures rs != [] && rs[0].pos <= x
  {
    var i :| 0 <= i < |rs| && rs[i].Has(x);
    assert i > 0 ==> Apart(rs, 0, i);
  }

  /** `out` is what one `Insert` of `r` into `rs` must leave behind. */
  ghost predicate Inserted(rs: seq<Range>, r: Range, out: seq<Range>) {
    && Canonical(out)
    && forall x :: Covers(out, x) <==> Covers(rs, x) || r.Has(x)
  }

  /** `out` is reached from `rs` by inserting `ins` one after the other. */
  ghost predicate InsertedAll(rs: seq<Range>, ins: seq<Range>, out: seq<Range>)
    decreases |ins|
  {
    if ins == [] then out == rs
    else exists mid :: Inserted(rs, ins[0], mid) && InsertedAll(mid, ins[1..], out)
  }

  lemma {:induction false} InsertedAllBytes(rs: seq<Range>, ins: seq<Range>, out: seq<Range>)
    requires Canonical(rs) && InsertedAll(rs, ins, out)
    ensures Canonical(out)
    ensures forall x :: Covers(out, x) <==> Covers(rs, x) || Covers(ins, x)
    decreases |ins|
  {
    if ins != [] {
      var mid :| Inserted(rs, ins[0], mid) && InsertedAll(mid, ins[1..], out);
      InsertedAllBytes(mid, ins[1..], out);
      forall x ensures Covers(out, x) <==> Covers(rs, x) || Covers(ins, x) {
        CoversConcat([ins[0]], ins[1..], x);
        assert ins == [ins[0]] + ins[1..];
        assert Covers([ins[0]], x) <==> [ins[0]][0].Has(x);
      }
    }
  }

  /** Any order (and any repetition) of the same inserts leaves the same list. */
  lemma InsertOrderIrrelevant(rs: seq<Range>, ins: seq<Range>, ins': seq<Range>,
                              out: seq<Range>, out': seq<Range>)
    requires Canonical(rs)
    requires InsertedAll(rs, ins, out) && InsertedAll(rs, ins', out')
    requires forall r :: r in ins <==> r in ins'
    ensures out == out'
  {
    InsertedAllBytes(rs, ins, out);
    InsertedAllBytes(rs, ins', out');
    forall x ensures Covers(out, x) <==> Covers(out', x) {
      CoversMembers(ins, ins', x);
      CoversMembers(ins', ins, x);
    }
    CanonicalUnique(out, out');
  }

  lemma CoversMembers(a: seq<Range>, b: seq<Range>, x: int)
    requires forall r :: r in a ==> r in b
    ensures Covers(a, x) ==> Covers(b, x)
  {
    if Covers(a, x) {
      var i :| 0 <= i < |a| && a[i].Has(x);
      assert a[i] in b;
      var j :| 0 <= j < |b| && b[j] == a[i];
    }
  }

  /************************* Merging and coalescing **************************/

  /**
   Folds `new` into `dst` when they touch; `dst` must not start before `new`.
   Answers whether it merged, and the new value of `dst`.
   */
  function Merge(new_: Range, dst: Range): (m: (bool, Range))
    ensures m.0 <==> dst.pos <= new_.End()
    ensures !m.0 ==> m.1 == dst
    ensures m.0 && new_.pos <= dst.pos && new_.size > 0 && dst.size > 0 ==>
              m.1.pos == new_.pos && m.1.End() == Max(new_.End(), dst.End()) && m.1.size > 0
  {
    if new_.End() < dst.pos then (false, dst)
    else if new_.End() > dst.End() then (true, Range(new_.pos, new_.size))
    else (true, Range(new_.pos, dst.size + (dst.pos - new_.pos)))
  }

  /**
   The first index whose range starts at or after `p`, by the halving search of
   the standard library.  Even on an unsorted list the neighbours of the answer
   are on the right side of `p`.
   */
  function Search(rs: seq<Range>, p: int, lo: nat, hi: nat): (i: nat)
    requires lo <= hi <= |rs|
    requires lo > 0 ==> rs[lo - 1].pos < p
    requires hi < |rs| ==> rs[hi].pos >= p
    ensures lo <= i <= hi
    ensures i > 0 ==> rs[i - 1].pos < p
    ensures i < |rs| ==> rs[i].pos >= p
    decreases hi - lo
  {
    if lo == hi then lo
    else
      var h := (lo + hi) / 2;
      if rs[h].pos >= p then Search(rs, p, lo, h) else Search(rs, p, h + 1, hi)
  }

  /** The list before the element at `i` is put in its final place. */
  predicate Mergeable(rs: seq<Range>, i: int) {
    && 0 <= i < |rs|
    && NonEmpty(rs)
    && Canonical(rs[..i])
    && Canonical(rs[i + 1..])
    && (i > 0 ==> rs[i - 1].pos <= rs[i].pos)
    && (i + 1 < |rs| ==> rs[i].pos <= rs[i + 1].pos)
  }

  /** The list that the source updates in place. */
  class RangeList {
    var rs: seq<Range>

    constructor (initial: seq<Range>)
      ensures rs == initial
    {
      rs := initial;
    }

    /** Merges the element at `i` with its neighbours and chops out the remains. */
    method Coalesce(i: nat)
      requires Mergeable(rs, i)
      modifies this
      ensures Canonical(rs)
      ensures SameBytes(rs, old(rs))
    {
      var orig := rs;
      var ranges := orig;
      var startChop, endChop := i, i;
      if i > 0 {
        var m := Merge(ranges[i - 1], ranges[i]);
        if m.0 { startChop := i - 1; }
        ranges := ranges[i := m.1];
      }
      var j := i;
      while j < |ranges| - 1
        invariant i <= j < |ranges| == |orig|
        invariant i - 1 <= startChop <= i && endChop == j
        invariant forall k :: 0 <= k < startChop ==> ranges[k] == orig[k]
        invariant forall k :: j < k < |orig| ==> ranges[k] == orig[k]
        invariant Chained(orig, startChop, j) && ranges[j] == Hull(orig, startChop, j)
      {
        var m := Merge(ranges[j], ranges[j + 1]);
        if !m.0 { break; }
        ranges := ranges[j + 1 := m.1];
        endChop := j + 1;
        j := j + 1;
      }
      Coalesced(orig, i, startChop, j);
      Chopped(orig, ranges, startChop, j);
      rs := ranges[..startChop] + ranges[endChop..];
    }

    /** Adds `r`; the list stays canonical and holds exactly the union. */
    method Insert(r: Range)
      requires Canonical(rs)
      modifies this
      ensures Inserted(old(rs), r, rs)
    {
      if r.IsEmpty() {
        return;
      }
      if |rs| == 0 {
        InsertFits(rs, 0, r);
        rs := rs + [r];
        return;
      }
      var i := Search(rs, r.pos, 0, |rs|);
      if i < |rs| {
        var m := Merge(r, rs[i]);
        if m.0 {
          InsertMerges(rs, i, r);
          rs := rs[i := m.1];
          Coalesce(i);
          return;
        }
      }
      InsertFits(rs, i, r);
      rs := rs[..i] + [r] + rs[i..];
      Coalesce(i);
    }
  }

  lemma InsertMerges(rs: seq<Range>, i: int, r: Range)
    requires Canonical(rs) && 0 <= i < |rs| && r.size > 0
    requires i > 0 ==> rs[i - 1].pos < r.pos
    requires r.pos <= rs[i].pos <= r.End()
    ensures Mergeable(rs[i := Merge(r, rs[i]).1], i)
    ensures forall x :: Covers(rs[i := Merge(r, rs[i]).1], x) <==> Covers(rs, x) || r.Has(x)
  {
    var m := Merge(r, rs[i]).1;
    CanonicalSplit(rs, i);
    CanonicalSplit(rs, i + 1);
    assert rs[i := m][..i] == rs[..i] && rs[i := m][i + 1..] == rs[i + 1..];
    assert i + 1 < |rs| ==> Apart(rs, i, i + 1);
    ReplaceBytes(rs, i, r, m);
  }

  lemma InsertFits(rs: seq<Range>, i: int, r: Range)
    requires Canonical(rs) && 0 <= i <= |rs| && r.size > 0
    requires i > 0 ==> rs[i - 1].pos < r.pos
    requires i < |rs| ==> r.pos <= rs[i].pos
    ensures Mergeable(rs[..i] + [r] + rs[i..], i)
    ensures forall x :: Covers(rs[..i] + [r] + rs[i..], x) <==> Covers(rs, x) || r.Has(x)
  {
    var out := rs[..i] + [r] + rs[i..];
    CanonicalSplit(rs, i);
    assert out[..i] == rs[..i] && out[i + 1..] == rs[i..];
    InsertBytes(rs, i, r);
  }

  lemma MergeableOrder(rs: seq<Range>, i: int, lo: int, k: int)
    requires Mergeable(rs, i) && 0 <= lo <= i < k < |rs|
    ensures rs[lo].pos <= rs[k].pos
  {
    assert lo < i - 1 ==> Apart(rs[..i], lo, i - 1);
    assert i + 1 < k ==> Apart(rs[i + 1..], 0, k - i - 1);
  }

  lemma ChopCanonical(rs: seq<Range>, i: int, lo: int, hi: int, h: Range)
    requires Mergeable(rs, i) && 0 <= lo <= i <= hi < |rs|
    requires h.size > 0
    requires lo > 0 ==> rs[lo - 1].End() < h.pos
    requires hi + 1 < |rs| ==> h.End() < rs[hi + 1].pos
    ensures Canonical(rs[..lo] + [h] + rs[hi + 1..])
  {
    CanonicalSplit(rs[..i], lo);
    assert rs[..i][..lo] == rs[..lo];
    CanonicalSplit(rs[i + 1..], hi - i);
    assert rs[i + 1..][hi - i..] == rs[hi + 1..];
    CanonicalConcat(rs[..lo], [h]);
    CanonicalConcat(rs[..lo] + [h], rs[hi + 1..]);
  }

  /** What is left once the chain around `i` is folded into its hull. */
  lemma Chopped(orig: seq<Range>, ranges: seq<Range>, lo: int, hi: int)
    requires 0 <= lo <= hi < |orig| == |ranges|
    requires forall k :: 0 <= k < lo ==> ranges[k] == orig[k]
    requires forall k :: hi < k < |orig| ==> ranges[k] == orig[k]
    ensures ranges[..lo] + ranges[hi..] == orig[..lo] + [ranges[hi]] + orig[hi + 1..]
  {
    assert ranges[..lo] == orig[..lo];
    assert ranges[hi..] == [ranges[hi]] + orig[hi + 1..];
  }

  lemma Coalesced(rs: seq<Range>, i: int, lo: int, hi: int)
    requires Mergeable(rs, i) && 0 <= lo <= i <= lo + 1 && i <= hi < |rs|
    requires Chained(rs, lo, hi)
    requires lo == i > 0 ==> rs[i - 1].End() < rs[i].pos
    requires hi + 1 < |rs| ==> Hull(rs, lo, hi).End() < rs[hi + 1].pos
    ensures Canonical(rs[..lo] + [Hull(rs, lo, hi)] + rs[hi + 1..])
    ensures SameBytes(rs[..lo] + [Hull(rs, lo, hi)] + rs[hi + 1..], rs)
  {
    HullBytes(rs, i, lo, hi);
    ChopBytes(rs, lo, hi, Hull(rs, lo, hi));
    assert 0 < lo < i ==> Apart(rs[..i], i - 2, i - 1);
    ChopCanonical(rs, i, lo, hi, Hull(rs, lo, hi));
  }

  lemma HullSelf(orig: seq<Range>, i: int)
    requires 0 <= i < |orig| && orig[i].size > 0
    ensures HullOf(orig, i, i, orig[i])
  {
    assert orig[i..i + 1] == [orig[i]];
    forall x ensures orig[i].Has(x) <==> Covers([orig[i]], x) {
      assert [orig[i]][0] == orig[i];
    }
  }

  /** The result of merging `rs[lo..=hi]` from left to right. */
  function Hull(rs: seq<Range>, lo: int, hi: int): Range
    requires 0 <= lo <= hi < |rs|
    decreases hi
  {
    if lo == hi then rs[lo] else Merge(Hull(rs, lo, hi - 1), rs[hi]).1
  }

  /** Every one of those merges went through. */
  predicate Chained(rs: seq<Range>, lo: int, hi: int)
    requires 0 <= lo <= hi < |rs|
    decreases hi
  {
    lo < hi ==> Chained(rs, lo, hi - 1) && rs[hi].pos <= Hull(rs, lo, hi - 1).End()
  }

  lemma {:induction false} HullBytes(rs: seq<Range>, i: int, lo: int, hi: int)
    requires Mergeable(rs, i) && 0 <= lo <= i <= lo + 1 && i <= hi < |rs|
    requires Chained(rs, lo, hi)
    ensures HullOf(rs, lo, hi, Hull(rs, lo, hi))
    decreases hi
  {
    if lo == hi {
      HullSelf(rs, lo);
    } else if hi == i {
      HullSelf(rs, lo);
      HullExtend(rs, lo, lo, rs[lo], Hull(rs, lo, hi));
    } else {
      HullBytes(rs, i, lo, hi - 1);
      MergeableOrder(rs, i, lo, hi);
      HullExtend(rs, lo, hi - 1, Hull(rs, lo, hi - 1), Hull(rs, lo, hi));
    }
  }

  /** `h` is exactly the bytes of `orig[lo..=hi]`, starting where they start. */
  ghost predicate HullOf(orig: seq<Range>, lo: int, hi: int, h: Range) {
    && 0 <= lo <= hi < |orig|
    && h.pos == orig[lo].pos
    && h.size > 0
    && forall x :: h.Has(x) <==> Covers(orig[lo..hi + 1], x)
  }

  lemma HullExtend(orig: seq<Range>, lo: int, hi: int, h: Range, h': Range)
    requires HullOf(orig, lo, hi, h) && hi + 1 < |orig|
    requires h.pos <= orig[hi + 1].pos <= h.End() && orig[hi + 1].size > 0
    requires h' == Merge(h, orig[hi + 1]).1
    ensures HullOf(orig, lo, hi + 1, h')
  {
    forall x ensures h'.Has(x) <==> Covers(orig[lo..hi + 2], x) {
      CoversConcat(orig[lo..hi + 1], [orig[hi + 1]], x);
      assert orig[lo..hi + 2] == orig[lo..hi + 1] + [orig[hi + 1]];
      assert Covers([orig[hi + 1]], x) <==> [orig[hi + 1]][0].Has(x);
      assert h'.Has(x) <==> h.Has(x) || orig[hi + 1].Has(x);
    }
  }

  lemma ChopBytes(orig: seq<Range>, lo: int, hi: int, h: Range)
    requires HullOf(orig, lo, hi, h)
    ensures SameBytes(orig[..lo] + [h] + orig[hi + 1..], orig)
  {
    forall x ensures Covers(orig[..lo] + [h] + orig[hi + 1..], x) <==> Covers(orig, x) {
      CoversConcat(orig[..lo] + [h], orig[hi + 1..], x);
      CoversConcat(orig[..lo], [h], x);
      assert Covers([h], x) <==> [h][0].Has(x);
      assert orig == orig[..lo] + orig[lo..hi + 1] + orig[hi + 1..];
      CoversConcat(orig[..lo] + orig[lo..hi + 1], orig[hi + 1..], x);
      CoversConcat(orig[..lo], orig[lo..hi + 1], x);
    }
  }

  lemma ReplaceBytes(rs: seq<Range>, i: int, r: Range, m: Range)
    requires 0 <= i < |rs| && r.size > 0 && rs[i].size > 0
    requires r.pos <= rs[i].pos <= r.End() && m == Merge(r, rs[i]).1
    ensures forall x :: Covers(rs[i := m], x) <==> Covers(rs, x) || r.Has(x)
  {
    var out := rs[i := m];
    forall x ensures Covers(out, x) <==> Covers(rs, x) || r.Has(x) {
      if Covers(rs, x) {
        var k :| 0 <= k < |rs| && rs[k].Has(x);
        assert out[k].Has(x);
      }
      if r.Has(x) {
        assert out[i].Has(x);
      }
      if Covers(out, x) {
        var k :| 0 <= k < |out| && out[k].Has(x);
        assert k != i ==> rs[k].Has(x);
      }
    }
  }

  lemma InsertBytes(rs: seq<Range>, i: int, r: Range)
    requires 0 <= i <= |rs|
    ensures forall x :: Covers(rs[..i] + [r] + rs[i..], x) <==> Covers(rs, x) || r.Has(x)
  {
    forall x ensures Covers(rs[..i] + [r] + rs[i..], x) <==> Covers(rs, x) || r.Has(x) {
      CoversConcat(rs[..i] + [r], rs[i..], x);
      CoversConcat(rs[..i], [r], x);
      assert Covers([r], x) <==> [r][0].Has(x);
      CoversConcat(rs[..i], rs[i..], x);
      assert rs == rs[..i] + rs[i..];
    }
  }
}
