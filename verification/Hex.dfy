/**
 The hexadecimal text form in which keys, signatures and transactions are stored and compared.
 */
module Hex {
  import opened Bytes
  import opened Wrappers

  function Digit(n: nat): (c: char)
    requires n < 16
    ensures DigitValue(c) == Some(n)
  {
    if n < 10 then '0' + n as char else 'a' + (n - 10) as char
  }

  function DigitValue(c: char): (v: Option<nat>)
    ensures v.Some? ==> v.value < 16
  {
    if '0' <= c <= '9' then Some((c - '0') as nat)
    else if 'a' <= c <= 'f' then Some((c - 'a') as nat + 10)
    else if 'A' <= c <= 'F' then Some((c - 'A') as nat + 10)
    else None
  }

  function Encode(b: bytes): (s: string)
    ensures |s| == 2 * |b|
  {
    if b == [] then "" else [Digit(b[0] / 16), Digit(b[0] % 16)] + Encode(b[1..])
  }

  /** An odd length or a character that is no hexadecimal digit is an error. */
  function Decode(s: string): (b: Option<bytes>)
    ensures b.Some? ==> |s| == 2 * |b.value|
  {
    if s == "" then Some([])
    else if |s| == 1 then None
    else
      match (DigitValue(s[0]), DigitValue(s[1]), Decode(s[2..]))
      case (Some(hi), Some(lo), Some(rest)) => Some([16 * hi + lo] + rest)
      case _ => None
  }

  lemma {:induction false} DecodeEncode(b: bytes)
    ensures Decode(Encode(b)) == Some(b)
  {
    if b != [] {
      DecodeEncode(b[1..]);
      assert Encode(b)[2..] == Encode(b[1..]);
      assert b == [b[0]] + b[1..];
    }
  }

  lemma EncodeInjective(a: bytes, b: bytes)
    ensures Encode(a) == Encode(b) <==> a == b
  {
    DecodeEncode(a);
    DecodeEncode(b);
  }

  const LOWER_CASE := "0123456789abcdef"
  const UPPER_CASE := "0123456789ABCDEF"

  /** Which characters are digits, and of what value. */
  lemma DigitMeaning(c: char, v: nat)
    ensures DigitValue(c) == Some(v) <==> v < 16 && (c == LOWER_CASE[v] || c == UPPER_CASE[v])
  {
  }

  predicate LowerCase(s: string) {
    forall k :: 0 <= k < |s| ==> s[k] in LOWER_CASE
  }

  /** The k-th byte stands in the text as two digits, the higher one first. */
  predicate ByteAt(s: string, b: bytes, k: nat)
    requires k < |b| && |s| == 2 * |b|
  {
    var (hi, lo) := (DigitValue(s[2 * k]), DigitValue(s[2 * k + 1]));
    hi.Some? && lo.Some? && b[k] == 16 * hi.value + lo.value
  }

  /** Which texts are read and as what: two digits for each byte and nothing else. */
  lemma {:induction false} DecodeMeaning(s: string, b: bytes)
    ensures Decode(s) == Some(b) <==> |s| == 2 * |b| && forall k :: 0 <= k < |b| ==> ByteAt(s, b, k)
  {
    if |s| == 2 * |b| && b != [] {
      DecodeMeaning(s[2..], b[1..]);
      assert b == [b[0]] + b[1..];
      assert forall k :: 1 <= k < |b| ==> (ByteAt(s, b, k) <==> ByteAt(s[2..], b[1..], k - 1));
      assert Decode(s) == Some(b) <==> ByteAt(s, b, 0) && Decode(s[2..]) == Some(b[1..]);
      if forall k :: 0 <= k < |b[1..]| ==> ByteAt(s[2..], b[1..], k) {
        forall k | 1 <= k < |b|
          ensures ByteAt(s, b, k)
        {
          assert ByteAt(s[2..], b[1..], k - 1);
        }
      }
      if forall k :: 0 <= k < |b| ==> ByteAt(s, b, k) {
        forall k | 0 <= k < |b[1..]|
          ensures ByteAt(s[2..], b[1..], k)
        {
          assert ByteAt(s, b, k + 1);
        }
      }
    }
  }

  lemma LowerDigit(c: char)
    requires c in LOWER_CASE
    ensures DigitValue(c).Some? && c == Digit(DigitValue(c).value)
  {
  }

  lemma DigitIsLower(n: nat)
    requires n < 16
    ensures Digit(n) in LOWER_CASE
  {
    DigitMeaning(Digit(n), n);
    assert LOWER_CASE[n] in LOWER_CASE;
  }

  lemma {:induction false} EncodeLower(b: bytes)
    ensures LowerCase(Encode(b))
  {
    if b != [] {
      EncodeLower(b[1..]);
      DigitIsLower(b[0] / 16);
      DigitIsLower(b[0] % 16);
    }
  }

  lemma FirstByte(s: string, b: bytes)
    requires |s| >= 2 && Decode(s) == Some(b)
    ensures b != [] && DigitValue(s[0]).Some? && DigitValue(s[1]).Some?
    ensures Decode(s[2..]) == Some(b[1..])
    ensures b[0] == 16 * DigitValue(s[0]).value + DigitValue(s[1]).value
  {
  }

  lemma Halves(b: byte, hi: nat, lo: nat)
    requires b == 16 * hi + lo && lo < 16
    ensures b / 16 == hi && b % 16 == lo
  {
  }

  lemma LowerPair(hi: char, lo: char, b: byte)
    requires hi in LOWER_CASE && lo in LOWER_CASE
    requires DigitValue(hi).Some? && DigitValue(lo).Some? && b == 16 * DigitValue(hi).value + DigitValue(lo).value
    ensures hi == Digit(b / 16) && lo == Digit(b % 16)
  {
    LowerDigit(hi);
    LowerDigit(lo);
    Halves(b, DigitValue(hi).value, DigitValue(lo).value);
  }

  lemma PrependByte(s: string, b: bytes)
    requires |s| >= 2 && b != [] && s[0] == Digit(b[0] / 16) && s[1] == Digit(b[0] % 16)
    requires s[2..] == Encode(b[1..])
    ensures s == Encode(b)
  {
    assert s == [s[0], s[1]] + s[2..];
  }

  lemma {:induction false} LowerUnique(s: string, b: bytes)
    requires LowerCase(s) && Decode(s) == Some(b)
    ensures s == Encode(b)
  {
    if s != "" {
      FirstByte(s, b);
      assert LowerCase(s[2..]);
      LowerUnique(s[2..], b[1..]);
      LowerPair(s[0], s[1], b[0]);
      PrependByte(s, b);
    }
  }

  /** What is written is the one lower-case text that is read as these bytes. */
  lemma EncodeMeaning(b: bytes, s: string)
    ensures s == Encode(b) <==> LowerCase(s) && Decode(s) == Some(b)
  {
    DecodeEncode(b);
    EncodeLower(b);
    if LowerCase(s) && Decode(s) == Some(b) {
      LowerUnique(s, b);
    }
  }
}
