/**
 Queries over a range list: `Find` and everything built from it, each shown to
 agree with the byte-set view.
 */
module RangeQueries {
  import opened Ranges

  /** The answer of one `Find` step. */
  datatype FindResult = FindResult(curr: Range, next: Range, present: bool)

  datatype FoundRange = FoundRange(r: Range, present: bool)

  const NoRange := Range(0, 0)

  /** The next present or absent piece of `r`, and what is left of `r` after it. */
  function Find(rs: seq<Range>, r: Range): (f: FindResult)
    ensures r.IsEmpty() ==> f == FindResult(r, NoRange, false)
    ensures !r.IsEmpty() ==>
              && f.curr.pos == r.pos && f.curr.size > 0 && f.curr.End() <= r.End()
              && f.next.size < r.size
              && ((f.next == NoRange && f.curr == r) || f.next == Range(f.curr.End(), r.End() - f.curr.End()))
  {
    if r.IsEmpty() then FindResult(r, NoRange, false)
    else
      var i := Search(rs, r.pos, 0, |rs|);
      if i > 0 && !rs[i - 1].Intersection(r).IsEmpty() then
        var x := rs[i - 1].Intersection(r);
        FindResult(x, Range(x.End(), r.size - x.size), true)
      else if i >= |rs| then FindResult(r, NoRange, false)
      else
        var x := rs[i].Intersection(r);
        if x.IsEmpty() then FindResult(r, NoRange, false)
        else if r.pos < x.pos then
          var gap := Range(r.pos, x.pos - r.pos);
          FindResult(gap, Range(gap.End(), r.size - gap.size), false)
        else FindResult(x, Range(x.End(), r.size - x.size), true)
  }

  /** A present piece is covered even when the list was never canonical. */
  lemma FindPresentCovered(rs: seq<Range>, r: Range, b: int)
    requires !r.IsEmpty() && Find(rs, r).present && Find(rs, r).curr.Has(b)
    ensures Covers(rs, b)
  {
    var i := Search(rs, r.pos, 0, |rs|);
    if i > 0 && !rs[i - 1].Intersection(r).IsEmpty() {
      assert rs[i - 1].Has(b);
    } else {
      assert rs[i].Has(b);
    }
  }

  lemma Located(rs: seq<Range>, p: int, k: int)
    requires Canonical(rs) && 0 <= k < |rs|
    ensures var i := Search(rs, p, 0, |rs|);
      && (k < i - 1 ==> rs[k].End() < rs[i - 1].pos < p)
      && (i <= k ==> p <= rs[k].pos)
      && (0 < i <= k ==> rs[i - 1].End() < rs[k].pos)
      && (i < k ==> rs[i].End() < rs[k].pos)
  {
    var i := Search(rs, p, 0, |rs|);
    assert k < i - 1 ==> Apart(rs, k, i - 1);
    assert 0 < i <= k ==> Apart(rs, i - 1, k);
    assert i < k ==> Apart(rs, i, k);
  }

  /** Each piece is wholly present or wholly absent, and the next byte of `r` differs. */
  lemma FindExact(rs: seq<Range>, r: Range, b: int)
    requires Canonical(rs) && !r.IsEmpty()
    ensures var f := Find(rs, r);
      && (f.curr.Has(b) ==> (Covers(rs, b) <==> f.present))
      && (b == f.curr.End() < r.End() ==> (Covers(rs, b) <==> !f.present))
  {
    var i := Search(rs, r.pos, 0, |rs|);
    CoversNear(rs, r.pos, b);
    if 0 < i < |rs| {
      assert Apart(rs, i - 1, i);
    }
  }

  /** At or after `p` only the ranges next to its place matter, up to the end of the later one. */
  lemma CoversNear(rs: seq<Range>, p: int, b: int)
    requires Canonical(rs)
    ensures var i := Search(rs, p, 0, |rs|);
      && ((0 < i && rs[i - 1].Has(b)) || (i < |rs| && rs[i].Has(b)) ==> Covers(rs, b))
      && (p <= b && (i < |rs| ==> b <= rs[i].End()) && Covers(rs, b) ==>
            (0 < i && rs[i - 1].Has(b)) || (i < |rs| && rs[i].Has(b)))
  {
    var i := Search(rs, p, 0, |rs|);
    if Covers(rs, b) {
      var k :| 0 <= k < |rs| && rs[k].Has(b);
      Located(rs, p, k);
    }
  }

  /** `frs` are the maximal alternating runs that make up `[lo, hi)`. */
  ghost predicate Runs(rs: seq<Range>, lo: int, hi: int, frs: seq<FoundRange>) {
    && (frs == [] ==> lo == hi)
    && (frs != [] ==> frs[0].r.pos == lo && frs[|frs| - 1].r.End() == hi)
    && (forall i :: 0 <= i < |frs| ==> frs[i].r.size > 0 && Uniform(rs, frs[i]))
    && (forall i :: 0 < i < |frs| ==> Alternates(frs, i))
  }

  ghost predicate Uniform(rs: seq<Range>, fr: FoundRange) {
    forall b :: fr.r.Has(b) ==> (Covers(rs, b) <==> fr.present)
  }

  predicate Alternates(frs: seq<FoundRange>, i: int)
    requires 0 < i < |frs|
  {
    frs[i].r.pos == frs[i - 1].r.End() && frs[i].present == !frs[i - 1].present
  }

  method FindAll(rs: seq<Range>, r: Range) returns (frs: seq<FoundRange>)
    requires Canonical(rs)
    ensures if r.IsEmpty() then frs == [] else Runs(rs, r.pos, r.End(), frs)
  {
    frs := [];
    var rest := r;
    while !rest.IsEmpty()
      invariant !r.IsEmpty() && !rest.IsEmpty() ==> rest.End() == r.End() && Runs(rs, r.pos, rest.pos, frs)
      invariant !rest.IsEmpty() && frs != [] ==> (Covers(rs, rest.pos) <==> !frs[|frs| - 1].present)
      invariant !r.IsEmpty() && rest.IsEmpty() ==> Runs(rs, r.pos, r.End(), frs)
      invariant r.IsEmpty() ==> rest == r && frs == []
      decreases rest.size
    {
      var f := Find(rs, rest);
      forall b ensures f.curr.Has(b) ==> (Covers(rs, b) <==> f.present) {
        FindExact(rs, rest, b);
      }
      FindExact(rs, rest, rest.pos);
      FindExact(rs, rest, f.curr.End());
      assert f.curr.Has(rest.pos);
      RunsExtend(rs, r.pos, rest.pos, frs, FoundRange(f.curr, f.present));
      frs := frs + [FoundRange(f.curr, f.present)];
      rest := f.next;
    }
  }

  lemma RunsExtend(rs: seq<Range>, lo: int, hi: int, frs: seq<FoundRange>, fr: FoundRange)
    requires Runs(rs, lo, hi, frs)
    requires fr.r.pos == hi && fr.r.size > 0 && Uniform(rs, fr)
    requires frs != [] ==> fr.present == !frs[|frs| - 1].present
    ensures Runs(rs, lo, fr.r.End(), frs + [fr])
  {
    var out := frs + [fr];
    forall i | 0 < i < |out| ensures Alternates(out, i) {
      assert i < |frs| ==> Alternates(frs, i);
    }
  }

  /** A run decomposition is unique: there is only one maximal alternating split. */
  lemma {:induction false} RunsUnique(rs: seq<Range>, lo: int, hi: int, a: seq<FoundRange>, b: seq<FoundRange>)
    requires Runs(rs, lo, hi, a) && Runs(rs, lo, hi, b)
    ensures a == b
    decreases |a|
  {
    RunsOrder(rs, lo, hi, a);
    RunsOrder(rs, lo, hi, b);
    if a == [] || b == [] {
      return;
    }
    assert a[0].r.Has(lo) && b[0].r.Has(lo);
    RunsHead(rs, lo, hi, a, b);
    RunsHead(rs, lo, hi, b, a);
    RunsTail(rs, lo, hi, a);
    RunsTail(rs, lo, hi, b);
    RunsUnique(rs, a[0].r.End(), hi, a[1..], b[1..]);
    assert a == [a[0]] + a[1..] && b == [b[0]] + b[1..];
  }

  lemma {:induction false} RunsOrder(rs: seq<Range>, lo: int, hi: int, a: seq<FoundRange>)
    requires Runs(rs, lo, hi, a)
    ensures lo <= hi
    ensures a != [] ==> lo < a[0].r.End() <= hi
    decreases |a|
  {
    if |a| > 1 {
      RunsTail(rs, lo, hi, a);
      RunsOrder(rs, a[0].r.End(), hi, a[1..]);
    }
  }

  lemma RunsTail(rs: seq<Range>, lo: int, hi: int, a: seq<FoundRange>)
    requires Runs(rs, lo, hi, a) && a != []
    ensures Runs(rs, a[0].r.End(), hi, a[1..])
  {
    if |a| > 1 {
      assert Alternates(a, 1);
    }
    forall i | 0 < i < |a| - 1 ensures Alternates(a[1..], i) {
      assert Alternates(a, i + 1);
    }
  }

  lemma RunsHead(rs: seq<Range>, lo: int, hi: int, a: seq<FoundRange>, b: seq<FoundRange>)
    requires Runs(rs, lo, hi, a) && Runs(rs, lo, hi, b) && a != [] && b != []
    requires a[0].r.Has(lo) && b[0].r.Has(lo)
    ensures a[0].r.End() <= b[0].r.End() && a[0].present == b[0].present
  {
    RunsOrder(rs, lo, hi, a);
    assert Uniform(rs, a[0]) && Uniform(rs, b[0]);
    var e := b[0].r.End();
    if e < a[0].r.End() {
      assert |b| > 1;
      assert Alternates(b, 1) && b[1].r.Has(e) && a[0].r.Has(e);
    }
  }

  /** Whether every byte of `r` is in the list. */
  predicate Present(rs: seq<Range>, r: Range) {
    if r.IsEmpty() then true
    else
      var f := Find(rs, r);
      f.present && f.next.IsEmpty()
  }

  lemma PresentExact(rs: seq<Range>, r: Range)
    requires Canonical(rs)
    ensures Present(rs, r) <==> CoversAll(rs, r.pos, r.End())
  {
    if !r.IsEmpty() {
      var f := Find(rs, r);
      forall b | r.pos <= b < f.curr.End() ensures Covers(rs, b) <==> f.present {
        assert f.curr.Has(b);
        FindExact(rs, r, b);
      }
      FindExact(rs, r, f.curr.End());
      FindExact(rs, r, r.pos);
      assert f.curr.Has(r.pos);
    }
  }

  /**
   The part of `r` from its first missing byte on.  A range that starts with a
   missing byte is returned unchanged.
   */
  function FindMissing(rs: seq<Range>, r: Range): Range {
    if r.IsEmpty() then r
    else
      var f := Find(rs, r);
      if !f.present then r
      else Range(f.curr.End(), r.size - (f.curr.End() - r.pos))
  }

  lemma FindMissingExact(rs: seq<Range>, r: Range)
    requires Canonical(rs)
    ensures var m := FindMissing(rs, r);
      && m.End() == r.End()
      && (r.IsEmpty() ==> m == r)
      && (!r.IsEmpty() ==> r.pos <= m.pos <= r.End() && CoversAll(rs, r.pos, m.pos))
      && (!m.IsEmpty() ==> !Covers(rs, m.pos))
  {
    if !r.IsEmpty() {
      var f := Find(rs, r);
      forall b | r.pos <= b < f.curr.End() ensures Covers(rs, b) <==> f.present {
        assert f.curr.Has(b);
        FindExact(rs, r, b);
      }
      assert f.curr.Has(r.pos);
      FindExact(rs, r, f.curr.End());
    }
  }

  /** A present piece is made of bytes of the list; on a canonical list an absent one has none. */
  lemma PieceBytes(rs: seq<Range>, r: Range)
    requires !r.IsEmpty()
    ensures var f := Find(rs, r);
      && (forall b :: f.present && f.curr.Has(b) ==> Covers(rs, b))
      && (Canonical(rs) ==> forall b :: f.curr.Has(b) ==> (Covers(rs, b) <==> f.present))
  {
    var f := Find(rs, r);
    forall b | f.curr.Has(b)
      ensures f.present ==> Covers(rs, b)
      ensures Canonical(rs) ==> (Covers(rs, b) <==> f.present)
    {
      if f.present {
        FindPresentCovered(rs, r, b);
      }
      if Canonical(rs) {
        FindExact(rs, r, b);
      }
    }
  }

  /**
   The part of `rs` inside `r`.  On any list at all the answer is canonical,
   inside `r` and made of bytes of `rs`; on a canonical list it is exactly the
   set intersection.
   */
  method Intersection(rs: seq<Range>, r: Range) returns (out: seq<Range>)
    ensures rs == [] ==> out == []
    ensures rs != [] ==> Canonical(out)
    ensures forall b :: Covers(out, b) ==> Covers(rs, b) && r.Has(b)
    ensures Canonical(rs) ==> forall b :: Covers(out, b) <==> Covers(rs, b) && r.Has(b)
  {
    if |rs| == 0 {
      return rs;
    }
    var acc := new RangeList([]);
    var rest := r;
    assert forall b :: !Covers(acc.rs, b);
    while !rest.IsEmpty()
      invariant fresh(acc) && Canonical(acc.rs)
      invariant !rest.IsEmpty() ==> rest.End() == r.End() && r.pos <= rest.pos
      invariant forall b :: Covers(acc.rs, b) ==> Covers(rs, b) && r.Has(b)
      invariant Canonical(rs) ==>
        forall b :: r.Has(b) && !rest.Has(b) ==> (Covers(acc.rs, b) <==> Covers(rs, b))
      decreases rest.size
    {
      var f := Find(rs, rest);
      PieceBytes(rs, rest);
      if f.present {
        acc.Insert(f.curr);
      }
      rest := f.next;
    }
    out := acc.rs;
  }

  /** The number of bytes held, by summing the sizes. */
  method Size(rs: seq<Range>) returns (size: int)
    requires Canonical(rs)
    ensures size == |Bytes(rs)|
  {
    size := 0;
    for i := 0 to |rs|
      invariant size == |Bytes(rs[..i])|
    {
      CanonicalSplit(rs, i + 1);
      AppendSize(rs[..i + 1]);
      assert rs[..i + 1][..i] == rs[..i];
      size := size + rs[i].size;
    }
    assert rs[..|rs|] == rs;
  }

  lemma AppendSize(rs: seq<Range>)
    requires Canonical(rs) && rs != []
    ensures |Bytes(rs)| == |Bytes(rs[..|rs| - 1])| + rs[|rs| - 1].size
  {
    var front, last := rs[..|rs| - 1], rs[|rs| - 1];
    SpanSize(last);
    forall x | x in Bytes(front) ensures x !in Span(last) {
      BytesCovers(front, x);
      var i :| 0 <= i < |front| && front[i].Has(x);
      assert Apart(rs, i, |rs| - 1);
    }
    assert Bytes(front) !! Span(last);
  }

  /** Compares two lists element by element. */
  method Equal(rs: seq<Range>, bs: seq<Range>) returns (equal: bool)
    ensures equal <==> rs == bs
    ensures Canonical(rs) && Canonical(bs) ==> (equal <==> SameBytes(rs, bs))
  {
    if Canonical(rs) && Canonical(bs) && SameBytes(rs, bs) {
      CanonicalUnique(rs, bs);
    }
    if |rs| != |bs| {
      return false;
    }
    for i := 0 to |rs|
      invariant rs[..i] == bs[..i]
    {
      if rs[i] != bs[i] {
        return false;
      }
    }
    assert rs == rs[..|rs|] && bs == bs[..|bs|];
    return true;
  }
}
