/**
 The write side of one sparse cache file: which bytes may be written, which are
 already trusted, and what a failed or short write leaves behind.
 */
module Item {
  import opened Common
  import opened Ranges
  import opened RangeQueries

  /** What a reader of the file sees at position `x`; unwritten bytes read as zero. */
  function At(data: seq<byte>, x: int): byte {
    if 0 <= x < |data| then data[x] else 0
  }

  /** The file after `b` was written at `off`, extended with zeros when needed. */
  function Overwrite(data: seq<byte>, off: nat, b: seq<byte>): (out: seq<byte>)
    ensures |out| == if b == [] then |data| else Max(|data|, off + |b|)
    ensures forall x :: At(out, x) == if off <= x < off + |b| then b[x - off] else At(data, x)
  {
    if b == [] then data
    else
      seq(Max(|data|, off + |b|), i requires i >= 0 =>
        if off <= i < off + |b| then b[i - off] else At(data, i))
  }

  /** What the system does with one write: how far it gets, and with what error. */
  datatype Fate = Fate(len: nat, err: Option<Error>)

  /** A write of the file reports a full disk as such and any other failure as one. */
  function Reported(f: Fate): Option<Error> {
    if f.err == None || f.err == Some(NoSpace) then f.err else Some(Failed)
  }

  /** What writing a missing piece of `len` bytes comes to: how far it gets and the error. */
  function Outcome(open: bool, pos: int, f: Fate, len: nat): (r: (nat, Option<Error>))
    ensures r.0 <= len && (r.1 == None ==> r.0 == len)
  {
    if !open then (0, Some(Closed))
    else if pos < 0 then (0, Some(Failed))
    else
      var n := Min(f.len, len);
      (n, if f.err == None && n < len then Some(ShortWrite) else Reported(f))
  }

  /** Every write of up to k bytes works. */
  ghost predicate Smooth(fates: nat -> Fate, k: nat) {
    forall i :: fates(i).len >= k && fates(i).err == None
  }

  /** The error is that of a file that is not open, of a negative offset, or of one of the writes. */
  ghost predicate Blamed(open: bool, off: int, fates: nat -> Fate, err: Error) {
    if !open then err == Closed else (off < 0 && err == Failed) || exists i :: Caused(fates(i), err)
  }

  predicate Caused(f: Fate, err: Error) {
    err == if f.err == None then ShortWrite else Reported(f).value
  }

  /** Why a write of `size` bytes at `off` fails at a piece of it. */
  ghost predicate Explained(open: bool, off: int, fates: nat -> Fate, size: nat, err: Option<Error>) {
    err.Some? ==> Blamed(open, off, fates, err.value) && !(open && off >= 0 && Smooth(fates, size))
  }

  lemma PieceExplained(open: bool, off: int, fates: nat -> Fate, size: nat, i: nat, pos: int, len: nat)
    requires pos >= off && len <= size
    ensures Explained(open, off, fates, size, Outcome(open, pos, fates(i), len).1)
  {
    var err := Outcome(open, pos, fates(i), len).1;
    if open && pos >= 0 && err.Some? {
      assert Caused(fates(i), err.value);
    }
  }

  /** The open sparse file.  How much of a write succeeds is up to the system. */
  class DataFile {
    var data: seq<byte>

    constructor ()
      ensures data == []
    {
      data := [];
    }

    method WriteAt(b: seq<byte>, off: int, f: Fate) returns (n: nat, err: Option<Error>)
      modifies this
      ensures n <= |b|
      ensures off < 0 ==> n == 0 && err == Some(Failed) && data == old(data)
      ensures off >= 0 ==> n == Min(f.len, |b|) && err == Reported(f) && data == Overwrite(old(data), off, b[..n])
    {
      if off < 0 {
        return 0, Some(Failed);
      }
      var k := Min(f.len, |b|);
      data := Overwrite(data, off, b[..k]);
      return k, Reported(f);
    }
  }

  /** The relation between the states around one `WriteAtNoOverwrite` of `n` bytes. */
  ghost predicate WroteNoOverwrite(rs: seq<Range>, data: seq<byte>, b: seq<byte>, off: int, n: nat,
                                   rs': seq<Range>, data': seq<byte>)
    requires n <= |b|
  {
    && Canonical(rs')
    && (forall x :: Covers(rs', x) <==> Covers(rs, x) || off <= x < off + n)
    && (forall x :: At(data', x) ==
          if off <= x < off + n && !Covers(rs, x) then b[x - off] else At(data, x))
  }

  /** `b` is the first byte of `r`, cut at `size`, that is not cached. */
  ghost predicate FirstMissing(rs: seq<Range>, r: Range, size: int, b: int) {
    && r.pos <= b < Min(r.End(), size)
    && !Covers(rs, b)
    && CoversAll(rs, r.pos, b)
  }

  /** The clipped answer of FindMissing starts at that byte and keeps the request's end. */
  lemma MissingExact(rs: seq<Range>, r: Range, size: int)
    requires Canonical(rs) && r.pos >= 0
    ensures var m := RangeQueries.FindMissing(rs, r).Clip(size);
      && (!m.IsEmpty() ==> FirstMissing(rs, r, size, m.pos) && m.End() == Min(r.End(), size))
      && (forall b :: FirstMissing(rs, r, size, b) ==> !m.IsEmpty() && b == m.pos)
  {
    RangeQueries.FindMissingExact(rs, r);
    var f := RangeQueries.FindMissing(rs, r);
    var m := f.Clip(size);
    forall b | FirstMissing(rs, r, size, b) ensures !m.IsEmpty() && b == m.pos {
      assert f.pos < b ==> Covers(rs, f.pos);
    }
  }

  /** The number of bytes held, as a sum. */
  function Held(rs: seq<Range>): int {
    if rs == [] then 0 else Held(rs[..|rs| - 1]) + rs[|rs| - 1].size
  }

  lemma {:induction false} HeldBytes(rs: seq<Range>)
    requires Canonical(rs)
    ensures Held(rs) == |Bytes(rs)|
    decreases |rs|
  {
    if rs != [] {
      CanonicalSplit(rs, |rs| - 1);
      HeldBytes(rs[..|rs| - 1]);
      AppendSize(rs);
    }
  }

  class Item {
    const ranges: RangeList
    var fd: DataFile?
    var size: int

    constructor (size: int)
      ensures Valid() && fd == null && fresh(ranges) && ranges.rs == [] && this.size == size
    {
      ranges := new RangeList([]);
      fd := null;
      this.size := size;
    }

    ghost predicate Valid()
      reads this, ranges
    {
      Canonical(ranges.rs)
    }

    ghost function Data(): seq<byte>
      reads this, fd
    {
      if fd == null then [] else fd.data
    }

    /** True exactly when the whole range is cached. */
    method HasRange(r: Range) returns (present: bool)
      requires Valid()
      ensures present <==> CoversAll(ranges.rs, r.pos, r.End())
    {
      PresentExact(ranges.rs, r);
      present := Present(ranges.rs, r);
    }

    /** The part of `r` from its first missing byte on, clipped to the object; empty exactly when there is none. */
    method FindMissing(r: Range) returns (out: Range)
      requires Valid()
      ensures r.pos >= 0 && !out.IsEmpty() ==>
        FirstMissing(ranges.rs, r, size, out.pos) && out.End() == Min(r.End(), size)
      ensures r.pos >= 0 ==> forall b :: FirstMissing(ranges.rs, r, size, b) ==> !out.IsEmpty() && b == out.pos
      ensures out == RangeQueries.FindMissing(ranges.rs, r).Clip(size)
    {
      if r.pos >= 0 {
        MissingExact(ranges.rs, r, size);
      }
      out := RangeQueries.FindMissing(ranges.rs, r);
      out := out.Clip(size);
    }

    /** Handles one piece: skips a present one, writes and records a missing one. */
    method WritePiece(found: FoundRange, piece: seq<byte>, f: Fate) returns (nn: nat, err: Option<Error>)
      requires Valid() && Uniform(ranges.rs, found) && |piece| == found.r.size > 0
      modifies ranges, fd
      ensures (nn, err) == if found.present then (|piece|, None) else Outcome(fd != null, found.r.pos, f, |piece|)
      ensures PieceDone(found, piece, nn, old(ranges.rs), old(Data()), ranges.rs, Data())
      ensures |Bytes(ranges.rs)| == |Bytes(old(ranges.rs))| + if found.present then 0 else nn
    {
      if found.present {
        return |piece|, None;
      }
      nn, err := WriteFile(piece, found.r.pos, f);
      assert forall x :: Range(found.r.pos, nn).Has(x) ==> found.r.Has(x);
      Record(Range(found.r.pos, nn));
    }

    method Record(r: Range)
      requires Valid() && r.size >= 0 && forall x :: r.Has(x) ==> !Covers(ranges.rs, x)
      modifies ranges
      ensures Inserted(old(ranges.rs), r, ranges.rs)
      ensures |Bytes(ranges.rs)| == |Bytes(old(ranges.rs))| + r.size
    {
      ghost var rs0 := ranges.rs;
      ranges.Insert(r);
      InsertSize(rs0, r, ranges.rs);
    }

    /** However far the file write gets, that much is in the file; less than all of it is an error. */
    method WriteFile(piece: seq<byte>, pos: int, f: Fate) returns (nn: nat, err: Option<Error>)
      modifies fd
      ensures (nn, err) == Outcome(fd != null, pos, f, |piece|)
      ensures forall x :: At(Data(), x) == if pos <= x < pos + nn then piece[x - pos] else At(old(Data()), x)
    {
      if fd == null {
        nn, err := 0, Some(Closed);
      } else {
        nn, err := fd.WriteAt(piece, pos, f);
      }
      if err == None && nn != |piece| {
        err := Some(ShortWrite);
      }
    }

    /** One more piece of a write of `b` that has come as far as `n`. */
    method NextPiece(found: FoundRange, piece: seq<byte>, f: Fate, ghost rs0: seq<Range>, ghost data0: seq<byte>,
                     ghost b: seq<byte>, ghost off: int, ghost n: nat) returns (nn: nat, err: Option<Error>)
      requires Valid() && Uniform(rs0, found) && n <= |b|
      requires WroteNoOverwrite(rs0, data0, b, off, n, ranges.rs, Data())
      requires found.r.pos == off + n && n + found.r.size <= |b| && found.r.size > 0
      requires piece == b[n..][..found.r.size]
      modifies ranges, fd
      ensures Valid()
      ensures (nn, err) == if found.present then (|piece|, None) else Outcome(fd != null, found.r.pos, f, |piece|)
      ensures WroteNoOverwrite(rs0, data0, b, off, n + nn, ranges.rs, Data())
      ensures Held(ranges.rs) == Held(old(ranges.rs)) + if found.present then 0 else nn
    {
      ghost var rs1, data1 := ranges.rs, Data();
      HeldBytes(rs1);
      UniformLater(rs0, data0, b, off, n, rs1, data1, found);
      nn, err := WritePiece(found, piece, f);
      WroteExtend(rs0, data0, b, off, n, nn, rs1, data1, ranges.rs, Data(), found);
      HeldBytes(ranges.rs);
    }

    /** Writes the bytes of `b` that are not cached yet, and no others. */
    method WriteAtNoOverwrite(b: seq<byte>, off: int, fates: nat -> Fate) returns (n: nat, skipped: nat, err: Option<Error>)
      requires Valid()
      modifies ranges, fd
      ensures Valid()
      ensures skipped <= n <= |b|
      ensures err == None ==> n == |b|
      ensures Explained(fd != null, off, fates, |b|, err)
      ensures WroteNoOverwrite(old(ranges.rs), old(Data()), b, off, n, ranges.rs, Data())
      ensures |Bytes(ranges.rs)| == |Bytes(old(ranges.rs))| + n - skipped
    {
      HeldBytes(ranges.rs);
      n, skipped, err := WritePieces(b, off, fates);
      HeldBytes(ranges.rs);
    }

    /** The loop over the present and missing runs. */
    method WritePieces(b: seq<byte>, off: int, fates: nat -> Fate) returns (n: nat, skipped: nat, err: Option<Error>)
      requires Valid()
      modifies ranges, fd
      ensures Valid()
      ensures skipped <= n <= |b|
      ensures err == None ==> n == |b|
      ensures Explained(fd != null, off, fates, |b|, err)
      ensures WroteNoOverwrite(old(ranges.rs), old(Data()), b, off, n, ranges.rs, Data())
      ensures Held(ranges.rs) == Held(old(ranges.rs)) + n - skipped
    {
      n, skipped, err := 0, 0, None;
      ghost var rs0, data0 := ranges.rs, Data();
      var frs := FindAll(ranges.rs, Range(off, |b|));
      var rest, pos := b, off;
      WroteNothing(rs0, data0, b, off);
      for i := 0 to |frs|
        invariant Valid() && err == None && skipped <= n <= |b|
        invariant pos == off + n && rest == b[n..]
        invariant pos == if i < |frs| then frs[i].r.pos else off + |b|
        invariant WroteNoOverwrite(rs0, data0, b, off, n, ranges.rs, Data())
        invariant Held(ranges.rs) == Held(rs0) + n - skipped
      {
        var found := frs[i];
        RunEnds(rs0, off, off + |b|, frs, i);
        assert n + found.r.size <= |b|;
        if found.r.pos != pos {
          return n, skipped, Some(OffsetMismatch);
        }
        ghost var at := n;
        var nn: nat;
        nn, err := NextPiece(found, rest[..found.r.size], fates(i), rs0, data0, b, off, n);
        if found.present {
          skipped := skipped + nn;
        }
        pos := pos + nn;
        Dropped(b, n, nn);
        rest := rest[nn..];
        n := n + nn;
        assert n == at + nn;
        if err != None {
          PieceExplained(fd != null, off, fates, |b|, i, found.r.pos, found.r.size);
          return n, skipped, err;
        }
        assert nn == found.r.size;
      }
    }
  }

  /** What one piece of a run does to the ranges and the file. */
  ghost predicate PieceDone(found: FoundRange, piece: seq<byte>, nn: nat,
                            rs: seq<Range>, data: seq<byte>, rs': seq<Range>, data': seq<byte>)
    requires nn <= |piece|
  {
    if found.present then nn == |piece| && rs' == rs && data' == data
    else
      && Inserted(rs, Range(found.r.pos, nn), rs')
      && forall x :: At(data', x) ==
           if found.r.pos <= x < found.r.pos + nn then piece[x - found.r.pos] else At(data, x)
  }

  lemma WroteNothing(rs: seq<Range>, data: seq<byte>, b: seq<byte>, off: int)
    requires Canonical(rs)
    ensures WroteNoOverwrite(rs, data, b, off, 0, rs, data)
  {
  }

  lemma Dropped(b: seq<byte>, n: nat, nn: nat)
    requires n + nn <= |b|
    ensures b[n..][nn..] == b[n + nn..]
  {
  }

  lemma UniformLater(rs0: seq<Range>, data0: seq<byte>, b: seq<byte>, off: int, n: nat,
                     rs1: seq<Range>, data1: seq<byte>, found: FoundRange)
    requires n <= |b| && WroteNoOverwrite(rs0, data0, b, off, n, rs1, data1)
    requires Uniform(rs0, found) && found.r.pos == off + n
    ensures Uniform(rs1, found)
  {
  }

  /** Runs stay inside the range they split, and each starts where the last ended. */
  lemma {:induction false} RunEnds(rs: seq<Range>, lo: int, hi: int, frs: seq<FoundRange>, i: int)
    requires Runs(rs, lo, hi, frs) && 0 <= i < |frs|
    ensures Uniform(rs, frs[i]) && frs[i].r.size > 0 && frs[i].r.End() <= hi
    ensures i + 1 < |frs| ==> frs[i + 1].r.pos == frs[i].r.End()
    ensures i + 1 == |frs| ==> frs[i].r.End() == hi
    decreases |frs| - i
  {
    if i + 1 < |frs| {
      assert Alternates(frs, i + 1);
      RunEnds(rs, lo, hi, frs, i + 1);
    }
  }

  /** Inserting a range with no byte in common adds exactly its size. */
  lemma InsertSize(rs: seq<Range>, r: Range, out: seq<Range>)
    requires Inserted(rs, r, out) && r.size >= 0
    requires forall x :: r.Has(x) ==> !Covers(rs, x)
    ensures |Bytes(out)| == |Bytes(rs)| + r.size
  {
    SpanSize(r);
    forall x ensures x in Bytes(out) <==> x in Bytes(rs) || x in Span(r) {
      BytesCovers(out, x);
      BytesCovers(rs, x);
    }
    forall x | x in Bytes(rs) ensures x !in Span(r) {
      BytesCovers(rs, x);
    }
    assert Bytes(out) == Bytes(rs) + Span(r);
    assert Bytes(rs) !! Span(r);
  }

  /** One more piece: skipped as a whole when present, otherwise written as far as it went. */
  lemma WroteExtend(rs0: seq<Range>, data0: seq<byte>, b: seq<byte>, off: int, n: nat, nn: nat,
                    rs1: seq<Range>, data1: seq<byte>, rs2: seq<Range>, data2: seq<byte>, found: FoundRange)
    requires n + nn <= |b| && nn <= found.r.size
    requires WroteNoOverwrite(rs0, data0, b, off, n, rs1, data1)
    requires found.r.pos == off + n && Uniform(rs0, found)
    requires n + found.r.size <= |b| && found.r.size > 0
    requires PieceDone(found, b[n..][..found.r.size], nn, rs1, data1, rs2, data2)
    ensures WroteNoOverwrite(rs0, data0, b, off, n + nn, rs2, data2)
  {
    forall x
      ensures Covers(rs2, x) <==> Covers(rs0, x) || off <= x < off + n + nn
      ensures At(data2, x) ==
        if off <= x < off + n + nn && !Covers(rs0, x) then b[x - off] else At(data0, x)
    {
      assert Range(off + n, nn).Has(x) <==> off + n <= x < off + n + nn;
      if off + n <= x < off + n + nn {
        assert found.r.Has(x);
      }
    }
  }
}
