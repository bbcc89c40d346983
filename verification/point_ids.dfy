/**
 * Qdrant point ids (`_generate_point_id`): the MD5 digest of the document id
 * laid out in the 8-4-4-4-12 textual form of a UUID (RFC 4122, section 3).
 */
module PointIds {
  import opened Digests

  /** The index of a hyphen in the 36-character textual UUID form. */
  predicate IsHyphenPosition(i: int) {
    i == 8 || i == 13 || i == 18 || i == 23
  }

  /** `s` with every `-` removed. */
  function RemoveHyphens(s: string): string {
    if |s| == 0 then ""
    else if s[0] == '-' then RemoveHyphens(s[1..])
    else [s[0]] + RemoveHyphens(s[1..])
  }

  lemma {:induction false} RemoveHyphensAppend(a: string, b: string)
    ensures RemoveHyphens(a + b) == RemoveHyphens(a) + RemoveHyphens(b)
  {
    if |a| > 0 {
      assert (a + b)[1..] == a[1..] + b;
      RemoveHyphensAppend(a[1..], b);
    } else {
      assert a + b == b;
    }
  }

  lemma {:induction false} RemoveHyphensOfHex(s: string)
    requires IsHexString(s)
    ensures RemoveHyphens(s) == s
  {
    if |s| > 0 {
      assert IsHexDigit(s[0]);
      RemoveHyphensOfHex(s[1..]);
    }
  }

  /** How many hyphens the layout puts before index `i`. */
  function HyphensBefore(i: int): int {
    if i <= 8 then 0 else if i <= 13 then 1 else if i <= 18 then 2 else if i <= 23 then 3 else 4
  }

  /**
   * The 8-4-4-4-12 layout of a digest: 36 characters, hyphens exactly at
   * 8, 13, 18 and 23, hexadecimal digits elsewhere, and the digest comes back
   * when the hyphens are removed.
   */
  function Layout(d: Digest): (id: string)
    ensures |id| == 36
    ensures forall i :: 0 <= i < 36 ==> (id[i] == '-' <==> IsHyphenPosition(i))
    ensures forall i :: 0 <= i < 36 && !IsHyphenPosition(i) ==> IsHexDigit(id[i])
    ensures RemoveHyphens(id) == d
  {
    var id := d[..8] + "-" + d[8..12] + "-" + d[12..16] + "-" + d[16..20] + "-" + d[20..32];
    LayoutCharacters(d, id);
    LayoutRoundTrip(d, id);
    id
  }

  lemma LayoutCharacters(d: Digest, id: string)
    requires id == d[..8] + "-" + d[8..12] + "-" + d[12..16] + "-" + d[16..20] + "-" + d[20..32]
    ensures |id| == 36
    ensures forall i :: 0 <= i < 36 && IsHyphenPosition(i) ==> id[i] == '-'
    ensures forall i :: 0 <= i < 36 && !IsHyphenPosition(i) ==> id[i] == d[i - HyphensBefore(i)]
  {
  }

  lemma {:induction false} LayoutRoundTrip(d: Digest, id: string)
    requires id == d[..8] + "-" + d[8..12] + "-" + d[12..16] + "-" + d[16..20] + "-" + d[20..32]
    ensures RemoveHyphens(id) == d
  {
    HyphenJoin(d[..8], d[8..12], d[12..16], d[16..20], d[20..32]);
    SlicesJoin(d);
  }

  /** Five hexadecimal parts joined by hyphens lose exactly the hyphens. */
  lemma {:induction false} HyphenJoin(a: string, b: string, c: string, e: string, f: string)
    requires IsHexString(a) && IsHexString(b) && IsHexString(c) && IsHexString(e) && IsHexString(f)
    ensures RemoveHyphens(a + "-" + b + "-" + c + "-" + e + "-" + f) == a + b + c + e + f
  {
    RemoveHyphensOfHex(a);
    var s := AppendPart(a, a, b);
    s := AppendPart(s, a + b, c);
    s := AppendPart(s, a + b + c, e);
    s := AppendPart(s, a + b + c + e, f);
  }

  /** The five slices of the layout cover the digest. */
  lemma SlicesJoin(d: Digest)
    ensures d[..8] + d[8..12] + d[12..16] + d[16..20] + d[20..32] == d
  {
    assert d[..8] + d[8..12] == d[..12];
    assert d[..12] + d[12..16] == d[..16];
    assert d[..16] + d[16..20] == d[..20];
    assert d[..20] + d[20..32] == d[..32] == d;
  }

  /** Appending a hyphen and a hexadecimal part appends just the part once hyphens are removed. */
  lemma AppendPart(s: string, plain: string, part: string) returns (s': string)
    requires RemoveHyphens(s) == plain && IsHexString(part)
    ensures s' == s + "-" + part && RemoveHyphens(s') == plain + part
  {
    s' := s + "-" + part;
    assert "-"[1..] == "";
    RemoveHyphensAppend(s, "-");
    RemoveHyphensAppend(s + "-", part);
    RemoveHyphensOfHex(part);
  }

  /**
   * `_generate_point_id(doc_id)`: the document id's digest in the 8-4-4-4-12
   * layout, from which the digest is recovered by dropping the hyphens.
   */
  function PointId(md5: Md5, docId: string): (id: string)
    ensures |id| == 36
    ensures forall i :: 0 <= i < 36 ==> (id[i] == '-' <==> IsHyphenPosition(i))
    ensures RemoveHyphens(id) == md5(docId)
  {
    Layout(md5(docId))
  }

  /** Two document ids get the same point id exactly when their digests agree. */
  lemma PointIdSameIffDigestSame(md5: Md5, a: string, b: string)
    ensures PointId(md5, a) == PointId(md5, b) <==> md5(a) == md5(b)
  {
    if PointId(md5, a) == PointId(md5, b) {
      assert RemoveHyphens(PointId(md5, a)) == md5(a);
    }
  }

  /**
   * The version digit (index 14) and the variant digit (index 19) of the id are
   * plain digest digits: the layout does not set the RFC 4122 version or variant,
   * so the all-zero digest yields version digit `0`.
   */
  lemma VersionAndVariantNotSet(d: Digest)
    ensures Layout(d)[14] == d[12] && Layout(d)[19] == d[16]
    ensures d == "00000000000000000000000000000000" ==> Layout(d)[14] == '0'
  {
    LayoutCharacters(d, Layout(d));
  }
}
