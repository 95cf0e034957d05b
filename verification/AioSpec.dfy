/** What the file transfer must produce, and the sequential program that produces it. */
module AioSpec {
  import opened Common

  /** `isalpha` in the C locale. */
  predicate IsAlpha(c: Byte) {
    65 <= c <= 90 || 97 <= c <= 122
  }

  /** A letter is 13 places further along in its own alphabet, round the end; any other byte is the same. */
  predicate Shifted(c: Byte, d: Byte) {
    if 65 <= c <= 90 then 65 <= d <= 90 && d - 65 == (c - 65 + 13) % 26
    else if 97 <= c <= 122 then 97 <= d <= 122 && d - 97 == (c - 97 + 13) % 26
    else d == c
  }

  /** Byte for byte, `r` is `s` with its letters shifted. */
  predicate Rotated(s: seq<Byte>, r: seq<Byte>) {
    |r| == |s| && forall i | 0 <= i < |s| :: Shifted(s[i], r[i])
  }

  /** The character substitution applied to every byte of the file. */
  function Translate(c: Byte): (d: Byte)
    ensures Shifted(c, d)
  {
    if !IsAlpha(c) then c
    else if c >= 110 then c - 13
    else if c >= 97 then c + 13
    else if c >= 78 then c - 13
    else c + 13
  }

  function TranslateAll(s: seq<Byte>): (r: seq<Byte>)
    ensures |r| == |s| && Rotated(s, r)
  {
    seq(|s|, i requires 0 <= i < |s| => Translate(s[i]))
  }

  lemma TranslateNext(s: seq<Byte>, j: nat)
    requires j < |s|
    ensures (TranslateAll(s[..j]) + s[j..])[j := Translate(s[j])] == TranslateAll(s[..j + 1]) + s[j + 1..]
    ensures (TranslateAll(s[..j]) + s[j..])[j] == s[j]
  {
    var d, e := (TranslateAll(s[..j]) + s[j..])[j := Translate(s[j])], TranslateAll(s[..j + 1]) + s[j + 1..];
    assert forall i | 0 <= i < |s| :: d[i] == (if i <= j then Translate(s[i]) else s[i]) == e[i];
  }

  /** A file after writing `d` at offset `off`; a hole left before the write reads as zeros. */
  function WriteAt(f: seq<Byte>, off: nat, d: seq<Byte>): (r: seq<Byte>) {
    var end := off + |d|;
    seq(if |f| < end then end else |f|,
        x requires 0 <= x => if off <= x < end then d[x - off] else if x < |f| then f[x] else 0)
  }

  /** The substitution leaves nothing open: one result has its letters shifted so. */
  lemma RotatedIsTranslated(s: seq<Byte>, r: seq<Byte>)
    ensures Rotated(s, r) <==> r == TranslateAll(s)
  {
    if Rotated(s, r) {
      forall i | 0 <= i < |s|
        ensures r[i] == TranslateAll(s)[i]
      {
        assert Shifted(s[i], r[i]) && Shifted(s[i], TranslateAll(s)[i]);
      }
    }
  }

  /** Transferring the transferred file gives the original back. */
  lemma TranslateRoundTrip(s: seq<Byte>)
    ensures Rotated(s, TranslateAll(s)) && TranslateAll(TranslateAll(s)) == s
  {
    forall i | 0 <= i < |s|
      ensures TranslateAll(TranslateAll(s))[i] == s[i]
    {
      assert Translate(Translate(s[i])) == s[i];
    }
  }

  /**
   * The in-place loop over the first `n` bytes of a buffer that both programs contain.
   */
  method TranslatePrefix(data: array<Byte>, n: nat)
    requires n <= data.Length
    modifies data
    ensures data[..] == TranslateAll(old(data[..n])) + old(data[n..])
    ensures forall k | 0 <= k < data.Length ::
      if k < n then Shifted(old(data[k]), data[k]) else data[k] == old(data[k])
  {
    for j := 0 to n
      invariant forall k :: 0 <= k < j ==> data[k] == Translate(old(data[k]))
      invariant forall k :: j <= k < data.Length ==> data[k] == old(data[k])
    {
      data[j] := Translate(data[j]);
    }
    ghost var want := TranslateAll(old(data[..n])) + old(data[n..]);
    assert forall k :: 0 <= k < data.Length ==> data[..][k] == want[k];
  }

  /**
   * The sequential program: read a chunk, translate it, append it. `chunks` is the kernel's choice
   * of read sizes, clipped to what a read may return: between 1 and `buf.Length`, and never more
   * than is left.
   */
  method CharProcess(input: seq<Byte>, buf: array<Byte>, chunks: seq<nat>) returns (out: seq<Byte>)
    requires buf.Length > 0
    modifies buf
    ensures out == TranslateAll(input) && Rotated(input, out)
  {
    out := [];
    var pos, calls := 0, 0;
    while pos < |input|
      invariant 0 <= pos <= |input|
      invariant out == TranslateAll(input[..pos])
    {
      var want := if calls < |chunks| && chunks[calls] > 0 then chunks[calls] else buf.Length;
      var n := Min(want, Min(buf.Length, |input| - pos));
      for k := 0 to n
        invariant forall m :: 0 <= m < k ==> buf[m] == input[pos + m]
      {
        buf[k] := input[pos + k];
      }
      assert buf[..n] == input[pos..pos + n];
      TranslatePrefix(buf, n);
      assert buf[..n] == TranslateAll(input[pos..pos + n]);
      assert TranslateAll(input[..pos + n]) == TranslateAll(input[..pos]) + TranslateAll(input[pos..pos + n]);
      out := out + buf[..n];
      pos, calls := pos + n, calls + 1;
    }
    assert input[..pos] == input;
  }
}
