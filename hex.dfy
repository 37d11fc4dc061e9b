/**
 * Base16 (section 8 of RFC 4648) as the `hex` crate implements it.
 * `Encode` writes two lower-case digits per byte, high nibble first.
 * `Decode` accepts digits of either case; it rejects input of odd length
 * before looking at any character, and otherwise reports the first
 * character that is not a digit, with its index in the input.
 */
module Hex {
  import opened Wrappers

  type Byte = x: int | 0 <= x < 256

  /** `hex::FromHexError`. */
  datatype HexError = OddLength | InvalidHexCharacter(c: char, index: nat)

  predicate IsLowerHexDigit(c: char) {
    '0' <= c <= '9' || 'a' <= c <= 'f'
  }

  /** The value of a digit of either case, or None for any other character. */
  function DigitValue(c: char): (v: Option<int>)
    ensures v.Some? ==> 0 <= v.value < 16
  {
    if 'A' <= c <= 'F' then Some(c as int - 'A' as int + 10)
    else if 'a' <= c <= 'f' then Some(c as int - 'a' as int + 10)
    else if '0' <= c <= '9' then Some(c as int - '0' as int)
    else None
  }

  predicate IsHexDigit(c: char) {
    DigitValue(c).Some?
  }

  /** The lower-case digit of a nibble; DigitValue reads it back. */
  function Digit(n: int): (c: char)
    requires 0 <= n < 16
    ensures IsLowerHexDigit(c) && DigitValue(c) == Some(n)
  {
    if n < 10 then ('0' as int + n) as char else ('a' as int + n - 10) as char
  }

  function Encode(b: seq<Byte>): (s: string)
    ensures |s| == 2 * |b|
    ensures forall i :: 0 <= i < |s| ==> IsLowerHexDigit(s[i])
  {
    if b == [] then [] else [Digit(b[0] / 16), Digit(b[0] % 16)] + Encode(b[1..])
  }

  function Decode(s: string): (r: Result<seq<Byte>, HexError>)
    ensures r.Ok? ==> 2 * |r.value| == |s|
    ensures |s| % 2 == 1 ==> r == Err(OddLength)
  {
    if |s| % 2 != 0 then Err(OddLength) else DecodePairs(s, 0)
  }

  /**
   * Decodes an even-length input two digits at a time; `offset` is the index
   * of s[0] in the whole input, which an invalid character is reported with.
   */
  function DecodePairs(s: string, offset: nat): (r: Result<seq<Byte>, HexError>)
    requires |s| % 2 == 0
    ensures r.Ok? ==> 2 * |r.value| == |s|
    decreases |s|
  {
    if s == [] then Ok([])
    else
      var hi, lo := DigitValue(s[0]), DigitValue(s[1]);
      if hi.None? then Err(InvalidHexCharacter(s[0], offset))
      else if lo.None? then Err(InvalidHexCharacter(s[1], offset + 1))
      else
        match DecodePairs(s[2..], offset + 2)
        case Err(e) => Err(e)
        case Ok(rest) => Ok([hi.value * 16 + lo.value] + rest)
  }

  lemma {:induction false} DecodePairsEncode(b: seq<Byte>, offset: nat)
    ensures DecodePairs(Encode(b), offset) == Ok(b)
  {
    if b != [] {
      var s := Encode(b);
      assert s[2..] == Encode(b[1..]);
      DecodePairsEncode(b[1..], offset + 2);
      assert b[0] / 16 * 16 + b[0] % 16 == b[0];
      assert [b[0]] + b[1..] == b;
    }
  }

  /** Decoding undoes encoding. */
  lemma DecodeEncode(b: seq<Byte>)
    ensures Decode(Encode(b)) == Ok(b)
  {
    DecodePairsEncode(b, 0);
  }

  /** Distinct byte strings have distinct encodings. */
  lemma EncodeInjective(a: seq<Byte>, b: seq<Byte>)
    ensures Encode(a) == Encode(b) ==> a == b
  {
    DecodeEncode(a);
    DecodeEncode(b);
  }

  /** Encoding works byte by byte, so it distributes over concatenation. */
  lemma {:induction false} EncodeAppend(a: seq<Byte>, b: seq<Byte>)
    ensures Encode(a + b) == Encode(a) + Encode(b)
  {
    if a == [] {
      assert a + b == b;
    } else {
      assert (a + b)[1..] == a[1..] + b;
      EncodeAppend(a[1..], b);
    }
  }

  lemma DigitOfValue(c: char)
    requires IsLowerHexDigit(c)
    ensures Digit(DigitValue(c).value) == c
  {
  }

  lemma {:induction false} DecodePairsLower(s: string, offset: nat)
    requires |s| % 2 == 0
    requires forall i :: 0 <= i < |s| ==> IsLowerHexDigit(s[i])
    ensures DecodePairs(s, offset).Ok? && Encode(DecodePairs(s, offset).value) == s
  {
    if s != [] {
      DecodePairsLower(s[2..], offset + 2);
      var hi, lo := DigitValue(s[0]).value, DigitValue(s[1]).value;
      var v := hi * 16 + lo;
      assert v / 16 == hi && v % 16 == lo;
      DigitOfValue(s[0]);
      DigitOfValue(s[1]);
      var b := DecodePairs(s, offset).value;
      assert b == [v] + DecodePairs(s[2..], offset + 2).value;
      assert b[1..] == DecodePairs(s[2..], offset + 2).value;
      assert s == [s[0], s[1]] + s[2..];
    }
  }

  /** Encoding undoes decoding on what encoding produces: even-length lower-case digit strings. */
  lemma EncodeDecode(s: string)
    requires |s| % 2 == 0
    requires forall i :: 0 <= i < |s| ==> IsLowerHexDigit(s[i])
    ensures Decode(s).Ok? && Encode(Decode(s).value) == s
  {
    DecodePairsLower(s, 0);
  }

  lemma {:induction false} DecodePairsFails(s: string, offset: nat)
    requires |s| % 2 == 0
    ensures DecodePairs(s, offset).Err? <==> exists i :: 0 <= i < |s| && !IsHexDigit(s[i])
    ensures DecodePairs(s, offset).Err? ==>
      var e := DecodePairs(s, offset).error;
      && e.InvalidHexCharacter?
      && offset <= e.index < offset + |s|
      && e.c == s[e.index - offset]
      && !IsHexDigit(e.c)
      && forall j :: 0 <= j < e.index - offset ==> IsHexDigit(s[j])
  {
    if s != [] {
      DecodePairsFails(s[2..], offset + 2);
      if IsHexDigit(s[0]) && IsHexDigit(s[1]) {
        if exists i :: 0 <= i < |s| && !IsHexDigit(s[i]) {
          var i :| 0 <= i < |s| && !IsHexDigit(s[i]);
          assert !IsHexDigit(s[2..][i - 2]);
        }
      }
    }
  }

  /**
   * Decoding fails exactly on input of odd length or holding a non-digit;
   * with even length it reports the first non-digit and its index.
   */
  lemma DecodeFails(s: string)
    ensures Decode(s).Err? <==> |s| % 2 == 1 || exists i :: 0 <= i < |s| && !IsHexDigit(s[i])
    ensures Decode(s).Err? && |s| % 2 == 0 ==>
      var e := Decode(s).error;
      && e.InvalidHexCharacter?
      && e.index < |s|
      && e.c == s[e.index]
      && !IsHexDigit(e.c)
      && forall j :: 0 <= j < e.index ==> IsHexDigit(s[j])
  {
    if |s| % 2 == 0 {
      DecodePairsFails(s, 0);
    }
  }
}
