/**
 * Base 64 encoding with the standard alphabet and '=' padding, as defined in
 * section 4 of RFC 4648 (what `base64js.fromByteArray` produces).
 */
module Base64 {

  type Byte = x: int | 0 <= x < 256

  const Pad: char := '='

  /** The characters of the standard alphabet: A-Z, a-z, 0-9, '+' and '/'. */
  predicate InAlphabet(c: char)
  {
    ('A' <= c <= 'Z') || ('a' <= c <= 'z') || ('0' <= c <= '9') || c == '+' || c == '/'
  }

  /** The character that encodes the 6-bit value `k` (Table 1 of RFC 4648). */
  function Sextet(k: int): (c: char)
    requires 0 <= k < 64
    ensures InAlphabet(c) && c != Pad
  {
    if k < 26 then ('A' as int + k) as char
    else if k < 52 then ('a' as int + k - 26) as char
    else if k < 62 then ('0' as int + k - 52) as char
    else if k == 62 then '+'
    else '/'
  }

  /** How many '=' characters end the encoding of `n` bytes. */
  function Padding(n: nat): nat
  {
    (3 - n % 3) % 3
  }

  /** The four characters for a full group of three bytes. */
  function EncodeGroup(b0: Byte, b1: Byte, b2: Byte): (r: string)
    ensures |r| == 4 && forall i :: 0 <= i < 4 ==> InAlphabet(r[i]) && r[i] != Pad
  {
    [Sextet(b0 / 4), Sextet(b0 % 4 * 16 + b1 / 16), Sextet(b1 % 16 * 4 + b2 / 64), Sextet(b2 % 64)]
  }

  /** The padded group for a final one or two bytes. */
  function EncodeTail(b: seq<Byte>): (r: string)
    requires 1 <= |b| <= 2
    ensures |r| == 4
    ensures forall i :: 0 <= i < 4 ==> (r[i] == Pad <==> i >= 4 - Padding(|b|))
    ensures forall i :: 0 <= i < 4 ==> (InAlphabet(r[i]) || r[i] == Pad)
  {
    if |b| == 1 then [Sextet(b[0] / 4), Sextet(b[0] % 4 * 16), Pad, Pad]
    else [Sextet(b[0] / 4), Sextet(b[0] % 4 * 16 + b[1] / 16), Sextet(b[1] % 16 * 4), Pad]
  }

  /** Every 3 input bytes become 4 characters; a final group of 1 or 2 bytes
      becomes 2 or 3 characters padded with '=' to 4. */
  function Encode(b: seq<Byte>): (r: string)
    ensures |r| == 4 * ((|b| + 2) / 3)
    decreases |b|
  {
    if |b| == 0 then ""
    else if |b| <= 2 then EncodeTail(b)
    else
      var rest := Encode(b[3..]);
      assert (|b| + 2) / 3 == (|b[3..]| + 2) / 3 + 1;
      EncodeGroup(b[0], b[1], b[2]) + rest
  }

  /** The output holds only alphabet characters and '='. */
  lemma {:induction false} EncodeChars(b: seq<Byte>)
    ensures forall i :: 0 <= i < |Encode(b)| ==> (InAlphabet(Encode(b)[i]) || Encode(b)[i] == Pad)
    decreases |b|
  {
    if |b| > 2 {
      var g, rest := EncodeGroup(b[0], b[1], b[2]), Encode(b[3..]);
      EncodeChars(b[3..]);
      assert Encode(b) == g + rest;
    }
  }

  /** Prepending a group free of '=' keeps '=' exactly at the last `p` places. */
  lemma PadSuffixAfterGroup(g: string, rest: string, p: nat)
    requires |g| == 4 && forall i :: 0 <= i < 4 ==> g[i] != Pad
    requires p <= |rest|
    requires forall i :: 0 <= i < |rest| ==> (rest[i] == Pad <==> i >= |rest| - p)
    ensures forall i :: 0 <= i < |g + rest| ==> ((g + rest)[i] == Pad <==> i >= |g + rest| - p)
  {
    forall i | 0 <= i < |g + rest|
      ensures (g + rest)[i] == Pad <==> i >= |g + rest| - p
    {
      if i >= 4 {
        assert (g + rest)[i] == rest[i - 4];
      }
    }
  }

  /** The '=' characters are exactly the last Padding(|b|) characters. */
  lemma {:induction false} EncodePadding(b: seq<Byte>)
    ensures forall i :: 0 <= i < |Encode(b)| ==> (Encode(b)[i] == Pad <==> i >= |Encode(b)| - Padding(|b|))
    decreases |b|
  {
    if |b| > 2 {
      var g, rest := EncodeGroup(b[0], b[1], b[2]), Encode(b[3..]);
      EncodePadding(b[3..]);
      assert Encode(b) == g + rest;
      assert Padding(|b|) == Padding(|b[3..]|);
      assert Padding(|b|) <= |rest| by {
        if |rest| == 0 {
          assert |b[3..]| == 0;
        }
      }
      PadSuffixAfterGroup(g, rest, Padding(|b|));
    }
  }

  /** A SHA-256 digest (32 bytes) encodes to 44 characters, the last of them
      the only '='. */
  lemma DigestEncodingLength(d: seq<Byte>)
    requires |d| == 32
    ensures |Encode(d)| == 44
    ensures Encode(d)[43] == Pad && forall i :: 0 <= i < 43 ==> InAlphabet(Encode(d)[i])
  {
    var r := Encode(d);
    assert |r| == 44;
    assert Padding(|d|) == 1;
    EncodeChars(d);
    EncodePadding(d);
  }
}
