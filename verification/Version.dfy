/** The fingerprint that decides whether cached bytes belong to an object version. */
module Version {
  import opened Common

  datatype Metadata = Metadata(size: int, etag: string, lastModified: Option<int>)

  /**
   The validator of a version.  The source hashes these three values; hashing is
   taken to be injective, so the values themselves stand for the digest.
   */
  datatype Fingerprint = Fingerprint(size: int, etag: string, lastModified: Option<int>)

  predicate IsSpace(c: char) {
    (c as int) in {9, 10, 11, 12, 13, 32, 0x85, 0xA0, 0x1680, 0x2028, 0x2029, 0x202F, 0x205F, 0x3000}
    || 0x2000 <= c as int <= 0x200A
  }

  function TrimLeft(s: string): string {
    if s != [] && IsSpace(s[0]) then TrimLeft(s[1..]) else s
  }

  function TrimRight(s: string): string {
    if s != [] && IsSpace(s[|s| - 1]) then TrimRight(s[..|s| - 1]) else s
  }

  function Trim(s: string): string {
    TrimRight(TrimLeft(s))
  }

  predicate IsWeak(etag: string) {
    "W/" <= etag
  }

  /** The strong entity tag, or nothing: a weak one is not a validator (RFC 9110, section 8.8.1). */
  function StrongTag(meta: Metadata): string {
    var etag := Trim(meta.etag);
    if IsWeak(etag) then "" else etag
  }

  /** None stands for the empty fingerprint: nothing identifies the version. */
  function MetadataFingerprint(meta: Metadata): Option<Fingerprint> {
    var etag := StrongTag(meta);
    if etag == "" && meta.lastModified.None? then None
    else Some(Fingerprint(meta.size, etag, meta.lastModified))
  }

  lemma {:induction false} TrimPadded(pad: string, s: string)
    requires forall i :: 0 <= i < |pad| ==> IsSpace(pad[i])
    ensures TrimLeft(pad + s) == TrimLeft(s)
    decreases |pad|
  {
    if pad == [] {
      assert pad + s == s;
    } else {
      assert (pad + s)[1..] == pad[1..] + s;
      TrimPadded(pad[1..], s);
    }
  }

  lemma {:induction false} TrimRightKeepsHead(s: string)
    requires s != [] && !IsSpace(s[0])
    ensures TrimRight(s) != [] && TrimRight(s)[0] == s[0]
    ensures |s| > 1 && !IsSpace(s[1]) ==> |TrimRight(s)| > 1 && TrimRight(s)[1] == s[1]
    decreases |s|
  {
    if |s| > 1 && IsSpace(s[|s| - 1]) {
      TrimRightKeepsHead(s[..|s| - 1]);
    }
  }

  /** A weak tag, padded or not, leaves exactly the fingerprint of no tag at all. */
  lemma WeakTagIsNoValidator(pad: string, rest: string, meta: Metadata)
    requires forall i :: 0 <= i < |pad| ==> IsSpace(pad[i])
    requires meta.etag == pad + ("W/" + rest)
    ensures MetadataFingerprint(meta) == MetadataFingerprint(meta.(etag := ""))
  {
    var tag := "W/" + rest;
    TrimPadded(pad, tag);
    assert tag[0] == 'W' && tag[1] == '/';
    TrimRightKeepsHead(tag);
    assert Trim(meta.etag) == TrimRight(tag);
    assert IsWeak(Trim(meta.etag));
    assert Trim("") == "";
  }

  predicate Blank(s: string) {
    forall i :: 0 <= i < |s| ==> IsSpace(s[i])
  }

  /** A tag that is no weak one and has no space at either end. */
  predicate Plain(tag: string) {
    !IsWeak(tag) && (tag != [] ==> !IsSpace(tag[0]) && !IsSpace(tag[|tag| - 1]))
  }

  /** Blanks at the front and `W/` behind them. */
  predicate WeakFrom(tag: string, i: nat) {
    i + 1 < |tag| && Blank(tag[..i]) && tag[i] == 'W' && tag[i + 1] == '/'
  }

  /** Trimming takes blanks off the front, and what remains does not begin with one. */
  lemma {:induction false} TrimLeftCuts(s: string) returns (i: nat)
    ensures i <= |s| && TrimLeft(s) == s[i..] && Blank(s[..i])
    ensures i < |s| ==> !IsSpace(s[i])
    decreases |s|
  {
    i := 0;
    if s != [] && IsSpace(s[0]) {
      var j := TrimLeftCuts(s[1..]);
      i := j + 1;
      forall k | 0 <= k < i
        ensures IsSpace(s[..i][k])
      {
        if k > 0 {
          assert s[1..][..j][k - 1] == s[k];
        }
      }
    }
  }

  lemma {:induction false} TrimRightCuts(s: string) returns (i: nat)
    ensures i <= |s| && TrimRight(s) == s[..i] && Blank(s[i..])
    ensures i > 0 ==> !IsSpace(s[i - 1])
    decreases |s|
  {
    i := |s|;
    if s != [] && IsSpace(s[|s| - 1]) {
      i := TrimRightCuts(s[..|s| - 1]);
      forall k | 0 <= k < |s| - i
        ensures IsSpace(s[i..][k])
      {
        if k < |s| - 1 - i {
          assert s[..|s| - 1][i..][k] == s[i + k];
        }
      }
    }
  }

  lemma {:induction false} TrimRightPadded(s: string, pad: string)
    requires Blank(pad)
    ensures TrimRight(s + pad) == TrimRight(s)
    decreases |pad|
  {
    if pad == [] {
      assert s + pad == s;
    } else {
      assert (s + pad)[..|s + pad| - 1] == s + pad[..|pad| - 1];
      TrimRightPadded(s, pad[..|pad| - 1]);
    }
  }

  lemma TrimPlain(tag: string)
    requires Plain(tag)
    ensures Trim(tag) == tag && StrongTag(Metadata(0, tag, None)) == tag
  {
  }

  lemma {:induction false} TrimLeftFollowed(s: string, pad: string)
    requires !Blank(s)
    ensures TrimLeft(s + pad) == TrimLeft(s) + pad
    decreases |s|
  {
    if IsSpace(s[0]) {
      assert (s + pad)[1..] == s[1..] + pad;
      assert !Blank(s[1..]) by {
        var i :| 0 <= i < |s| && !IsSpace(s[i]);
        assert s[1..][i - 1] == s[i];
      }
      TrimLeftFollowed(s[1..], pad);
    }
  }

  lemma BlankTrims(s: string)
    ensures Blank(s) <==> Trim(s) == ""
  {
    var i := TrimLeftCuts(s);
    var l := TrimLeft(s);
    var j := TrimRightCuts(l);
    assert s[..|s|] == s && l[0..] == l;
    assert i < |s| ==> l[0] == s[i] && !IsSpace(s[i]);
    assert j < |l| ==> l[j..][0] == l[j];
  }

  lemma TrimPads(front: string, tag: string, back: string)
    requires Blank(front) && Blank(back)
    ensures Trim(front + (tag + back)) == Trim(tag)
  {
    TrimPadded(front, tag + back);
    if Blank(tag) {
      BlankTrims(tag);
      assert Blank(tag + back);
      BlankTrims(tag + back);
    } else {
      TrimLeftFollowed(tag, back);
      TrimRightPadded(TrimLeft(tag), back);
    }
  }

  /** However a tag is padded with blanks, the fingerprint is the same. */
  lemma PaddingIgnored(front: string, tag: string, back: string, meta: Metadata)
    requires Blank(front) && Blank(back)
    ensures MetadataFingerprint(meta.(etag := front + (tag + back))) == MetadataFingerprint(meta.(etag := tag))
  {
    TrimPads(front, tag, back);
    TagByTrim(front + (tag + back), tag, meta);
  }

  lemma TagByTrim(a: string, b: string, meta: Metadata)
    requires Trim(a) == Trim(b)
    ensures MetadataFingerprint(meta.(etag := a)) == MetadataFingerprint(meta.(etag := b))
  {
  }

  /** Fingerprints tell versions apart: equal ones mean the same size, tag and time of change. */
  lemma FingerprintTells(a: Metadata, b: Metadata)
    requires Plain(a.etag) && Plain(b.etag) && MetadataFingerprint(a).Some?
    ensures MetadataFingerprint(a) == MetadataFingerprint(b) <==> a == b
  {
    TrimPlain(a.etag);
    TrimPlain(b.etag);
  }

  /** There is no validator exactly when there is no time of change and the tag is blank or weak. */
  lemma NoValidator(meta: Metadata)
    ensures MetadataFingerprint(meta).None? <==>
            meta.lastModified.None? && (Blank(meta.etag) || exists i :: WeakFrom(meta.etag, i))
  {
    BlankTrims(meta.etag);
    WeakTrims(meta.etag);
  }

  lemma FirstNonBlank(s: string, i: nat, k: nat)
    requires i < |s| && Blank(s[..i]) && !IsSpace(s[i])
    requires k < |s| && Blank(s[..k]) && !IsSpace(s[k])
    ensures i == k
  {
    assert forall x :: 0 <= x < i ==> s[..i][x] == s[x];
    assert forall x :: 0 <= x < k ==> s[..k][x] == s[x];
  }

  lemma WeakTrims(s: string)
    ensures IsWeak(Trim(s)) <==> exists i :: WeakFrom(s, i)
  {
    var i := TrimLeftCuts(s);
    var l := TrimLeft(s);
    var j := TrimRightCuts(l);
    if IsWeak(Trim(s)) {
      assert Trim(s)[0] == 'W' && Trim(s)[1] == '/';
      assert s[i] == l[0] && s[i + 1] == l[1];
      assert WeakFrom(s, i);
    }
    if k: nat :| WeakFrom(s, k) {
      FirstNonBlank(s, i, k);
      assert i == k && l[0] == 'W' && l[1] == '/';
      TrimRightKeepsHead(l);
    }
  }
}
