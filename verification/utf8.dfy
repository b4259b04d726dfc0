/** UTF-8 as defined by section 4 of RFC 3629: which byte sequences are
    well-formed (what `std::str::from_utf8` accepts) and how a Unicode scalar
    value is encoded (what `str::as_bytes` and `str::len` see). */
module Utf8 {
  import opened Ints

  predicate IsTail(b: byte)
  {
    0x80 <= b <= 0xBF
  }

  /** The length of the well-formed character at the front of `s`, following
      the UTF8-1 .. UTF8-4 rules of RFC 3629 section 4; 0 when `s` is empty or
      does not start with a well-formed character. */
  function LeadWidth(s: seq<byte>): (w: nat)
    ensures w <= |s| && w <= 4
  {
    if |s| == 0 then 0
    else if s[0] <= 0x7F then 1
    else if 0xC2 <= s[0] <= 0xDF then
      if |s| >= 2 && IsTail(s[1]) then 2 else 0
    else if s[0] == 0xE0 then
      if |s| >= 3 && 0xA0 <= s[1] <= 0xBF && IsTail(s[2]) then 3 else 0
    else if (0xE1 <= s[0] <= 0xEC) || (0xEE <= s[0] <= 0xEF) then
      if |s| >= 3 && IsTail(s[1]) && IsTail(s[2]) then 3 else 0
    else if s[0] == 0xED then
      if |s| >= 3 && 0x80 <= s[1] <= 0x9F && IsTail(s[2]) then 3 else 0
    else if s[0] == 0xF0 then
      if |s| >= 4 && 0x90 <= s[1] <= 0xBF && IsTail(s[2]) && IsTail(s[3]) then 4 else 0
    else if 0xF1 <= s[0] <= 0xF3 then
      if |s| >= 4 && IsTail(s[1]) && IsTail(s[2]) && IsTail(s[3]) then 4 else 0
    else if s[0] == 0xF4 then
      if |s| >= 4 && 0x80 <= s[1] <= 0x8F && IsTail(s[2]) && IsTail(s[3]) then 4 else 0
    else 0
  }

  /** `s` is a sequence of well-formed UTF-8 characters. */
  predicate IsValid(s: seq<byte>)
    decreases |s|
  {
    |s| == 0 || (LeadWidth(s) > 0 && IsValid(s[LeadWidth(s)..]))
  }

  /** The UTF-8 encoding of one Unicode scalar value. */
  function EncodeChar(c: char): (bs: seq<byte>)
    ensures 1 <= |bs| <= 4
  {
    var cp := c as int;
    if cp < 0x80 then [cp]
    else if cp < 0x800 then [0xC0 + cp / 64, 0x80 + cp % 64]
    else if cp < 0x10000 then [0xE0 + cp / 4096, 0x80 + (cp / 64) % 64, 0x80 + cp % 64]
    else [0xF0 + cp / 262144, 0x80 + (cp / 4096) % 64, 0x80 + (cp / 64) % 64, 0x80 + cp % 64]
  }

  /** The UTF-8 encoding of a string: what `str::as_bytes` returns. */
  function Encode(s: string): seq<byte>
  {
    if |s| == 0 then [] else EncodeChar(s[0]) + Encode(s[1..])
  }

  /** The byte length of a string, what Rust's `str::len` returns. */
  function ByteLength(s: string): nat
  {
    |Encode(s)|
  }

  /** An encoded character is read back as one well-formed character of its own width. */
  lemma EncodeCharIsWellFormed(c: char, rest: seq<byte>)
    ensures LeadWidth(EncodeChar(c) + rest) == |EncodeChar(c)|
  {
    var cp := c as int;
    var s := EncodeChar(c) + rest;
    if cp < 0x80 {
    } else if cp < 0x800 {
      assert 2 <= cp / 64 < 32;
    } else if cp < 0x10000 {
      assert cp / 4096 < 16;
      if cp < 0x1000 {
        assert (cp / 64) % 64 == cp / 64;
        assert 0xA0 <= s[1];
      } else if 0xD000 <= cp < 0xD800 {
        assert cp / 4096 == 13;
        assert (cp / 64) % 64 == cp / 64 - 0xD000 / 64;
        assert s[1] <= 0x9F;
      }
    } else {
      assert cp / 262144 <= 4;
      if cp < 0x40000 {
        assert (cp / 4096) % 64 == cp / 4096;
        assert 0x90 <= s[1];
      } else if cp >= 0x100000 {
        assert cp / 262144 == 4;
        assert (cp / 4096) % 64 == cp / 4096 - 256;
        assert s[1] <= 0x8F;
      }
    }
  }

  /** Encoding always produces well-formed UTF-8. */
  lemma {:induction false} EncodeIsValid(s: string)
    ensures IsValid(Encode(s))
  {
    if |s| > 0 {
      var e := Encode(s);
      var w := |EncodeChar(s[0])|;
      EncodeCharIsWellFormed(s[0], Encode(s[1..]));
      assert e[w..] == Encode(s[1..]);
      EncodeIsValid(s[1..]);
    }
  }

  /** Only the character U+0000 encodes to a zero byte. */
  lemma {:induction false} EncodeHasNoZero(s: string)
    requires '\0' !in s
    ensures 0 !in Encode(s)
  {
    if |s| > 0 {
      assert s[0] != '\0';
      assert '\0' !in s[1..];
      EncodeHasNoZero(s[1..]);
    }
  }

  /** Prepending a character adds its encoded width to the byte length. */
  lemma ByteLengthCons(c: char, rest: string)
    ensures ByteLength([c] + rest) == |EncodeChar(c)| + ByteLength(rest)
  {
    assert ([c] + rest)[1..] == rest;
  }

  /** Byte length adds up over concatenation. */
  lemma {:induction false} ByteLengthAppend(a: string, b: string)
    ensures ByteLength(a + b) == ByteLength(a) + ByteLength(b)
  {
    if |a| > 0 {
      assert a + b == [a[0]] + (a[1..] + b);
      assert a == [a[0]] + a[1..];
      ByteLengthCons(a[0], a[1..] + b);
      ByteLengthCons(a[0], a[1..]);
      ByteLengthAppend(a[1..], b);
    } else {
      assert a + b == b;
    }
  }

  /** The longest prefix of `s` whose encoding fits in `budget` bytes: the
      cut falls on a character boundary, never inside a character. */
  function FitPrefix(s: string, budget: nat): (p: string)
    ensures ByteLength(p) <= budget
    ensures |p| <= |s| && p == s[..|p|]
    ensures ByteLength(s) <= budget ==> p == s
    ensures |p| < |s| ==> ByteLength(s[..|p| + 1]) > budget
    decreases |s|
  {
    if |s| == 0 then []
    else
      var w := |EncodeChar(s[0])|;
      if w <= budget then
        var q := FitPrefix(s[1..], budget - w);
        PrefixCons(s, |q| + 1);
        PrefixCons(s, |s|);
        ByteLengthCons(s[0], q);
        ByteLengthCons(s[0], s[1..]);
        assert |q| < |s| - 1 ==> ByteLength(s[..|q| + 2]) > budget by {
          if |q| < |s| - 1 {
            PrefixCons(s, |q| + 2);
            ByteLengthCons(s[0], s[1..][..|q| + 1]);
          }
        }
        [s[0]] + q
      else
        PrefixCons(s, 1);
        ByteLengthCons(s[0], []);
        []
  }

  /** A non-empty prefix is the first character followed by a prefix of the
      rest. */
  lemma PrefixCons(s: string, k: nat)
    requires 0 < k <= |s|
    ensures s[..k] == [s[0]] + s[1..][..k - 1]
  {
    forall i | 0 <= i < k
      ensures s[..k][i] == ([s[0]] + s[1..][..k - 1])[i]
    {
      if i > 0 {
        assert ([s[0]] + s[1..][..k - 1])[i] == s[1..][..k - 1][i - 1];
      }
    }
  }

  predicate IsAscii(s: string)
  {
    forall i :: 0 <= i < |s| ==> s[i] as int < 0x80
  }

  /** For ASCII text the byte length is the character count. */
  lemma {:induction false} AsciiByteLength(s: string)
    requires IsAscii(s)
    ensures ByteLength(s) == |s|
  {
    if |s| > 0 {
      assert IsAscii(s[1..]);
      AsciiByteLength(s[1..]);
    }
  }

  /** A non-ASCII string can be short in characters and long in bytes:
      eighteen copies of U+00E9 are 36 bytes, nineteen are 38. */
  lemma {:induction false} TwoByteCharsLength(n: nat)
    ensures ByteLength(seq(n, i => '\U{00E9}')) == 2 * n
  {
    if n > 0 {
      var s := seq(n, i => '\U{00E9}');
      assert s[1..] == seq(n - 1, i => '\U{00E9}');
      TwoByteCharsLength(n - 1);
    }
  }
}
