/** JavaScript string facts the core depends on: `.length` counts UTF-16 code
    units, `Buffer.from(string)` is the UTF-8 encoding, and
    `Buffer.toString('hex')` is two lowercase hex digits per byte. */
module Text {
  import opened Common

  /** `s.length` in JavaScript: a character outside the Basic Multilingual
      Plane takes two UTF-16 code units. */
  function Utf16Length(s: string): (n: nat)
    ensures n >= |s|
  {
    if |s| == 0 then 0
    else (if s[0] as int >= 0x1_0000 then 2 else 1) + Utf16Length(s[1..])
  }

  predicate IsAscii(s: string)
  {
    forall i :: 0 <= i < |s| ==> s[i] as int < 0x80
  }

  /** UTF-8 encoding of one character. */
  function Utf8Char(c: char): (b: seq<byte>)
    ensures 1 <= |b| <= 4
    ensures |b| == 1 <==> c as int < 0x80
    ensures c as int < 0x80 ==> b == [c as int]
    ensures |b| >= (if c as int >= 0x1_0000 then 2 else 1)
  {
    var n := c as int;
    if n < 0x80 then [n]
    else if n < 0x800 then [0xC0 + n / 64, 0x80 + n % 64]
    else if n < 0x1_0000 then [0xE0 + n / 4096, 0x80 + (n / 64) % 64, 0x80 + n % 64]
    else [0xF0 + n / 262144, 0x80 + (n / 4096) % 64, 0x80 + (n / 64) % 64, 0x80 + n % 64]
  }

  /** `Buffer.from(s)`: the UTF-8 bytes of `s`. */
  function Utf8Encode(s: string): seq<byte>
  {
    if |s| == 0 then [] else Utf8Char(s[0]) + Utf8Encode(s[1..])
  }

  /** A string never has fewer UTF-8 bytes than UTF-16 code units, and has
      exactly as many precisely when it is ASCII. */
  lemma {:induction false} Utf8NotShorter(s: string)
    ensures |Utf8Encode(s)| >= Utf16Length(s)
    ensures |Utf8Encode(s)| == Utf16Length(s) <==> IsAscii(s)
  {
    if |s| > 0 {
      Utf8NotShorter(s[1..]);
      if IsAscii(s) {
        assert IsAscii(s[1..]) by {
          forall i | 0 <= i < |s[1..]| ensures s[1..][i] as int < 0x80 {
            assert s[1..][i] == s[i + 1];
          }
        }
      } else if s[0] as int < 0x80 {
        assert !IsAscii(s[1..]) by {
          var i :| 0 <= i < |s| && s[i] as int >= 0x80;
          assert s[1..][i - 1] == s[i];
        }
      }
    }
  }

  /** An ASCII string is encoded byte for byte. */
  lemma {:induction false} AsciiEncoding(s: string)
    requires IsAscii(s)
    ensures |Utf8Encode(s)| == |s|
    ensures forall i :: 0 <= i < |s| ==> Utf8Encode(s)[i] == s[i] as int
  {
    if |s| > 0 {
      assert s[0] as int < 0x80;
      assert IsAscii(s[1..]) by {
        forall i | 0 <= i < |s[1..]| ensures s[1..][i] as int < 0x80 {
          assert s[1..][i] == s[i + 1];
        }
      }
      AsciiEncoding(s[1..]);
      forall i | 1 <= i < |s| ensures Utf8Encode(s)[i] == s[i] as int {
        assert s[1..][i - 1] == s[i];
      }
    }
  }

  /** On ASCII strings the encoding loses nothing. */
  lemma AsciiEncodingInjective(s: string, t: string)
    requires IsAscii(s) && IsAscii(t)
    requires Utf8Encode(s) == Utf8Encode(t)
    ensures s == t
  {
    AsciiEncoding(s);
    AsciiEncoding(t);
    forall i | 0 <= i < |s| ensures s[i] == t[i] {
      assert s[i] as int == Utf8Encode(s)[i] == t[i] as int;
    }
  }

  predicate IsLowerHexDigit(c: char)
  {
    '0' <= c <= '9' || 'a' <= c <= 'f'
  }

  predicate IsLowerHex(s: string)
  {
    forall i :: 0 <= i < |s| ==> IsLowerHexDigit(s[i])
  }

  function HexDigit(n: nat): (c: char)
    requires n < 16
    ensures IsLowerHexDigit(c)
  {
    if n < 10 then ('0' as int + n) as char else ('a' as int + n - 10) as char
  }

  lemma HexDigitInjective(m: nat, n: nat)
    requires m < 16 && n < 16 && HexDigit(m) == HexDigit(n)
    ensures m == n
  {
  }

  /** `Buffer.toString('hex')`. */
  function HexEncode(bytes: seq<byte>): (h: string)
    ensures |h| == 2 * |bytes|
    ensures IsLowerHex(h)
  {
    if |bytes| == 0 then ""
    else [HexDigit(bytes[0] / 16), HexDigit(bytes[0] % 16)] + HexEncode(bytes[1..])
  }

  /** Hex encoding is one-to-one: distinct byte strings have distinct
      renderings. */
  lemma {:induction false} HexEncodeInjective(a: seq<byte>, b: seq<byte>)
    requires HexEncode(a) == HexEncode(b)
    ensures a == b
  {
    if |a| > 0 {
      var ha, hb := HexEncode(a), HexEncode(b);
      assert ha[0] == hb[0] && ha[1] == hb[1];
      HexDigitInjective(a[0] / 16, b[0] / 16);
      HexDigitInjective(a[0] % 16, b[0] % 16);
      assert a[0] == b[0];
      assert ha[2..] == HexEncode(a[1..]);
      assert hb[2..] == HexEncode(b[1..]);
      HexEncodeInjective(a[1..], b[1..]);
      assert a == [a[0]] + a[1..];
      assert b == [b[0]] + b[1..];
    }
  }

  /** Lowercase hex is ASCII. */
  lemma LowerHexIsAscii(s: string)
    requires IsLowerHex(s)
    ensures IsAscii(s)
    ensures Utf16Length(s) == |s|
  {
    assert IsAscii(s) by {
      forall i | 0 <= i < |s| ensures s[i] as int < 0x80 {
        assert IsLowerHexDigit(s[i]);
      }
    }
    Utf8NotShorter(s);
    AsciiEncoding(s);
  }

  /** `String.prototype.toUpperCase` restricted to ASCII letters. */
  function UpperAscii(c: char): char
  {
    if 'a' <= c <= 'z' then (c as int - 32) as char else c
  }

  function ToUpperAscii(s: string): (u: string)
    ensures |u| == |s|
    ensures forall i :: 0 <= i < |s| ==> u[i] == UpperAscii(s[i])
  {
    seq(|s|, i requires 0 <= i < |s| => UpperAscii(s[i]))
  }

  predicate StartsWith(s: string, prefix: string)
  {
    |prefix| <= |s| && s[..|prefix|] == prefix
  }

  /** Does some character of `s` lie in `lo..hi` (a regex class `[lo-hi]`)? */
  predicate HasCharIn(s: string, lo: char, hi: char)
  {
    exists i :: 0 <= i < |s| && lo <= s[i] <= hi
  }

  /** Index of the first `sep` in `s`, or `|s|` when there is none. */
  function IndexOf(s: string, sep: char): (k: nat)
    ensures k <= |s|
    ensures forall i :: 0 <= i < k ==> s[i] != sep
    ensures k < |s| ==> s[k] == sep
  {
    if |s| == 0 || s[0] == sep then 0 else 1 + IndexOf(s[1..], sep)
  }

  /** `parts.join(sep)`: the parts with one separator between neighbours. */
  function Join(parts: seq<string>, sep: char): string
    requires |parts| >= 1
  {
    if |parts| == 1 then parts[0] else parts[0] + [sep] + Join(parts[1..], sep)
  }

  /** `s.split(sep)` for a one-character separator: the segments between
      separators, always at least one; joining them back gives `s`, and no
      segment holds the separator. */
  function Split(s: string, sep: char): (parts: seq<string>)
    ensures |parts| >= 1
    ensures Join(parts, sep) == s
    ensures forall i, j :: 0 <= i < |parts| && 0 <= j < |parts[i]| ==> parts[i][j] != sep
    decreases |s|
  {
    var k := IndexOf(s, sep);
    if k == |s| then [s]
    else
      var rest := Split(s[k + 1..], sep);
      assert ([s[..k]] + rest)[1..] == rest;
      assert s == s[..k] + [sep] + s[k + 1..];
      [s[..k]] + rest
  }

  /** `String(n)` for a natural number: its decimal digits. */
  function DecimalString(n: nat): (s: string)
    ensures |s| >= 1
  {
    if n < 10 then [('0' as int + n) as char] else DecimalString(n / 10) + [('0' as int + n % 10) as char]
  }
}
