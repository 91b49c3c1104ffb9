/** Bytes on the wire, the fixed-width integer codecs the protocols use,
    32-bit floats as opaque 4-byte words, and the few text operations
    (encode, decode, strip) applied to device replies. */
module Bytes {
  import opened Errors

  predicate IsByte(x: int)
  {
    0 <= x < 0x100
  }

  predicate IsBytes(s: seq<int>)
  {
    forall i :: 0 <= i < |s| ==> IsByte(s[i])
  }

  /** A Python `bytes` value. */
  type ByteString = s: seq<int> | IsBytes(s)

  /** Range of a `struct` "H" field. */
  predicate IsU16(x: int)
  {
    0 <= x < 0x1_0000
  }

  predicate AllU16(xs: seq<int>)
  {
    forall i :: 0 <= i < |xs| ==> IsU16(xs[i])
  }

  // ---------------------------------------------------------------------
  // 16-bit integers

  /** `struct.pack(">H", x)`: most significant byte first. */
  function BE16(x: int): (r: seq<int>)
    requires IsU16(x)
    ensures |r| == 2 && IsBytes(r)
  {
    [x / 0x100, x % 0x100]
  }

  /** `struct.unpack(">H", b)[0]`. */
  function FromBE16(b: seq<int>): (x: int)
    requires |b| == 2 && IsBytes(b)
    ensures IsU16(x)
  {
    b[0] * 0x100 + b[1]
  }

  lemma BE16RoundTrip(x: int)
    requires IsU16(x)
    ensures FromBE16(BE16(x)) == x
  {
  }

  lemma FromBE16RoundTrip(b: seq<int>)
    requires |b| == 2 && IsBytes(b)
    ensures BE16(FromBE16(b)) == b
  {
  }

  /** `struct.pack("<H", x)`: least significant byte first. */
  function LE16(x: int): (r: seq<int>)
    requires IsU16(x)
    ensures |r| == 2 && IsBytes(r)
  {
    [x % 0x100, x / 0x100]
  }

  function FromLE16(b: seq<int>): (x: int)
    requires |b| == 2 && IsBytes(b)
    ensures IsU16(x)
  {
    b[0] + b[1] * 0x100
  }

  lemma LE16RoundTrip(x: int)
    requires IsU16(x)
    ensures FromLE16(LE16(x)) == x
  {
  }

  /** Packing a list of values as consecutive little-endian uint16 fields,
      as `struct.pack("<HHH", ...)` and the appended `uintle` bit arrays do. */
  function PackLE16(xs: seq<int>): (r: ByteString)
    requires AllU16(xs)
    ensures |r| == 2 * |xs| && |r| % 2 == 0
    ensures forall i :: 0 <= i < |xs| ==> r[2 * i .. 2 * i + 2] == LE16(xs[i])
  {
    if xs == [] then []
    else
      var rest := PackLE16(xs[1..]);
      assert forall i :: 1 <= i < |xs| ==> (LE16(xs[0]) + rest)[2 * i .. 2 * i + 2] == rest[2 * (i - 1) .. 2 * (i - 1) + 2];
      LE16(xs[0]) + rest
  }

  /** Packing one more value appends its two bytes: the packing can be
      built value by value. */
  lemma {:induction false} PackLE16Snoc(xs: seq<int>, x: int)
    requires AllU16(xs) && IsU16(x)
    ensures AllU16(xs + [x]) && PackLE16(xs + [x]) == PackLE16(xs) + LE16(x)
  {
    if xs == [] {
      assert ([] + [x])[1..] == [];
    } else {
      assert (xs + [x])[1..] == xs[1..] + [x];
      PackLE16Snoc(xs[1..], x);
    }
  }

  /** Reading every two bytes as a little-endian uint16; a trailing odd
      byte makes `struct.unpack` fail. */
  function UnpackLE16(bs: seq<int>): (r: seq<int>)
    requires |bs| % 2 == 0 && IsBytes(bs)
    ensures |r| == |bs| / 2 && AllU16(r)
    ensures forall i :: 0 <= i < |r| ==> r[i] == FromLE16(bs[2 * i .. 2 * i + 2])
  {
    if bs == [] then []
    else
      var rest := UnpackLE16(bs[2..]);
      assert forall i :: 1 <= i <= |rest| ==> bs[2 * i .. 2 * i + 2] == bs[2..][2 * (i - 1) .. 2 * (i - 1) + 2];
      [FromLE16(bs[..2])] + rest
  }

  lemma {:induction false} UnpackPackLE16(xs: seq<int>)
    requires AllU16(xs)
    ensures UnpackLE16(PackLE16(xs)) == xs
  {
    var r := UnpackLE16(PackLE16(xs));
    forall i | 0 <= i < |xs|
      ensures r[i] == xs[i]
    {
      LE16RoundTrip(xs[i]);
    }
  }

  // ---------------------------------------------------------------------
  // 32-bit floats, kept as the four bytes that carry them

  /** A float32 as it travels on the wire; its numeric value is not modelled. */
  type Word = w: seq<int> | |w| == 4 && IsBytes(w) witness [0, 0, 0, 0]

  /** Concatenation of words, as `struct.pack("<ff...")` produces. */
  function Flatten(ws: seq<Word>): (r: ByteString)
    ensures |r| == 4 * |ws| && |r| % 4 == 0
    ensures forall i :: 0 <= i < |ws| ==> r[4 * i .. 4 * i + 4] == ws[i]
  {
    if ws == [] then []
    else
      var rest := Flatten(ws[1..]);
      assert forall i :: 1 <= i < |ws| ==> (ws[0] + rest)[4 * i .. 4 * i + 4] == rest[4 * (i - 1) .. 4 * (i - 1) + 4];
      ws[0] + rest
  }

  /** Flattening one more word appends its four bytes. */
  lemma {:induction false} FlattenSnoc(ws: seq<Word>, w: Word)
    ensures Flatten(ws + [w]) == Flatten(ws) + w
  {
    if ws == [] {
      assert ([] + [w])[1..] == [];
    } else {
      assert (ws + [w])[1..] == ws[1..] + [w];
      FlattenSnoc(ws[1..], w);
    }
  }

  /** Cutting a byte string into consecutive 4-byte words, as a float32
      unpack over `range(0, len, 4)` does. */
  function Words(bs: seq<int>): (r: seq<Word>)
    requires |bs| % 4 == 0 && IsBytes(bs)
    ensures |r| == |bs| / 4
    ensures forall i :: 0 <= i < |r| ==> r[i] == bs[4 * i .. 4 * i + 4]
  {
    if bs == [] then []
    else
      var rest := Words(bs[4..]);
      assert forall i :: 1 <= i <= |rest| ==> bs[4 * i .. 4 * i + 4] == bs[4..][4 * (i - 1) .. 4 * (i - 1) + 4];
      [bs[..4]] + rest
  }

  lemma WordsFlatten(ws: seq<Word>)
    ensures Words(Flatten(ws)) == ws
  {
    var r := Words(Flatten(ws));
    assert |r| == |ws|;
    forall i | 0 <= i < |ws|
      ensures r[i] == ws[i]
    {
    }
  }

  lemma {:induction false} FlattenWords(bs: seq<int>)
    requires |bs| % 4 == 0 && IsBytes(bs)
    ensures Flatten(Words(bs)) == bs
  {
    if bs != [] {
      var ws := Words(bs);
      assert ws == [bs[..4]] + Words(bs[4..]);
      assert ws[1..] == Words(bs[4..]);
      FlattenWords(bs[4..]);
      assert Flatten(ws) == bs[..4] + bs[4..];
    }
  }

  // ---------------------------------------------------------------------
  // Text: one byte per character (the ASCII range of UTF-8)

  predicate IsText(s: string)
  {
    forall i :: 0 <= i < |s| ==> s[i] as int < 0x100
  }

  /** Text whose every character fits a byte. */
  type Text = s: string | IsText(s)

  /** `str.encode()` for single-byte characters. */
  function Encode(s: string): (r: ByteString)
    requires IsText(s)
    ensures |r| == |s|
    ensures forall i :: 0 <= i < |s| ==> r[i] == s[i] as int
  {
    seq(|s|, i requires 0 <= i < |s| => s[i] as int)
  }

  /** `bytes.decode()` for single-byte characters. */
  function Decode(bs: seq<int>): (r: string)
    requires IsBytes(bs)
    ensures |r| == |bs| && IsText(r)
    ensures forall i :: 0 <= i < |bs| ==> r[i] as int == bs[i]
  {
    seq(|bs|, i requires 0 <= i < |bs| => bs[i] as char)
  }

  lemma DecodeEncode(s: string)
    requires IsText(s)
    ensures Decode(Encode(s)) == s
  {
    var r := Decode(Encode(s));
    assert |r| == |s|;
    forall i | 0 <= i < |s|
      ensures r[i] == s[i]
    {
      assert r[i] as int == s[i] as int;
    }
  }

  predicate IsAscii(bs: seq<int>)
  {
    forall i :: 0 <= i < |bs| ==> 0 <= bs[i] < 0x80
  }

  /** Text in the ASCII range, which UTF-8 encodes one byte per character. */
  predicate AsciiText(t: string)
  {
    forall i :: 0 <= i < |t| ==> 0 <= t[i] as int < 0x80
  }

  /** Text the strict decoder accepts back once encoded. */
  type Ascii = s: string | AsciiText(s)

  const BadUtf8: string := "'utf-8' codec can't decode byte"

  /** Strict `bytes.decode("utf-8")` for the one-byte range: ASCII decodes
      one character per byte, and any other byte raises the decoder's
      `UnicodeDecodeError`, a `ValueError`. */
  function Utf8(bs: ByteString): (r: Result<string>)
    ensures r.Ok? <==> IsAscii(bs)
    ensures r.Ok? ==> r.value == Decode(bs)
    ensures r.Err? ==> r.error == ValueError(BadUtf8)
  {
    if IsAscii(bs) then Ok(Decode(bs)) else Err(ValueError(BadUtf8))
  }

  /** ASCII text encodes to bytes the strict decoder takes back to it. */
  lemma Utf8Encode(t: string)
    requires AsciiText(t)
    ensures IsText(t) && IsAscii(Encode(t)) && Utf8(Encode(t)) == Ok(t)
  {
    DecodeEncode(t);
  }

  /** Characters `str.strip()` removes, restricted to the ASCII range. */
  predicate IsSpace(c: char)
  {
    (9 <= c as int <= 13) || (28 <= c as int <= 32)
  }

  /** `str.lstrip()`: drop leading white space. */
  function TrimStart(s: string): (r: string)
    ensures |r| <= |s|
  {
    if s != [] && IsSpace(s[0]) then TrimStart(s[1..]) else s
  }

  lemma {:induction false} TrimStartSpec(s: string)
    ensures var r := TrimStart(s);
      r == s[|s| - |r|..] && (r == [] || !IsSpace(r[0]))
      && forall i :: 0 <= i < |s| - |r| ==> IsSpace(s[i])
  {
    if s != [] && IsSpace(s[0]) {
      TrimStartSpec(s[1..]);
    }
  }

  /** `str.rstrip()`: drop trailing white space. */
  function TrimEnd(s: string): (r: string)
    ensures |r| <= |s|
  {
    if s != [] && IsSpace(s[|s| - 1]) then TrimEnd(s[..|s| - 1]) else s
  }

  lemma {:induction false} TrimEndSpec(s: string)
    ensures var r := TrimEnd(s);
      r == s[..|r|] && (r == [] || !IsSpace(r[|r| - 1]))
      && forall i :: |r| <= i < |s| ==> IsSpace(s[i])
  {
    if s != [] && IsSpace(s[|s| - 1]) {
      TrimEndSpec(s[..|s| - 1]);
    }
  }

  /** `str.strip()`. */
  function Strip(s: string): (r: string)
    ensures |r| <= |s|
  {
    TrimEnd(TrimStart(s))
  }

  /** The stripped string is a slice of the input with no surrounding white
      space, and everything cut off was white space. */
  lemma StripSpec(s: string)
    ensures var r := Strip(s);
      (exists i, j ::
        (0 <= i <= j <= |s| && r == s[i..j]
        && (forall k :: 0 <= k < i ==> IsSpace(s[k]))
        && (forall k :: j <= k < |s| ==> IsSpace(s[k]))))
      && (r == [] || (!IsSpace(r[0]) && !IsSpace(r[|r| - 1])))
  {
    var t := TrimStart(s);
    TrimStartSpec(s);
    TrimEndSpec(t);
    var i := |s| - |t|;
    var u := TrimEnd(t);
    assert u == s[i..i + |u|];
  }

  /** A string made only of white space strips to nothing, and only such a string does. */
  lemma StripEmptyIff(s: string)
    ensures Strip(s) == [] <==> forall k :: 0 <= k < |s| ==> IsSpace(s[k])
  {
    StripSpec(s);
  }

  /** `str.rstrip(c)`: drop trailing copies of `c`. */
  function RStrip(s: string, c: char): (r: string)
    ensures |r| <= |s| && r == s[..|r|]
    ensures r == [] || r[|r| - 1] != c
    ensures forall i :: |r| <= i < |s| ==> s[i] == c
  {
    if s != [] && s[|s| - 1] == c then RStrip(s[..|s| - 1], c) else s
  }

  predicate StartsWith(s: string, prefix: string)
  {
    |prefix| <= |s| && s[..|prefix|] == prefix
  }

  lemma StartsWithConcat(prefix: string, s: string)
    ensures StartsWith(prefix + s, prefix)
  {
    assert (prefix + s)[..|prefix|] == prefix;
  }

  /** Python's `sub in s` for strings. */
  predicate Contains(s: string, sub: string)
  {
    StartsWith(s, sub) || (s != [] && Contains(s[1..], sub))
  }

  // ---------------------------------------------------------------------
  // Decimal rendering, for the messages that quote counts

  function Digit(d: nat): (c: char)
    requires d < 10
    ensures '0' <= c <= '9' && c as int - '0' as int == d
  {
    ('0' as int + d) as char
  }

  predicate IsDecimal(s: string)
  {
    forall i :: 0 <= i < |s| ==> '0' <= s[i] <= '9'
  }

  /** The number a string of decimal digits spells, most significant
      digit first. */
  function DecimalValue(s: string): nat
    requires IsDecimal(s)
  {
    if s == [] then 0 else 10 * DecimalValue(s[..|s| - 1]) + (s[|s| - 1] as int - '0' as int)
  }

  /** `str(n)` for a natural number. */
  function NatToString(n: nat): (r: string)
    ensures 1 <= |r| && IsDecimal(r)
  {
    if n < 10 then [Digit(n)] else NatToString(n / 10) + [Digit(n % 10)]
  }

  /** `str(n)` spells `n` in decimal, with no leading zero except for 0
      itself. */
  lemma {:induction false} NatToStringValue(n: nat)
    ensures DecimalValue(NatToString(n)) == n
    ensures NatToString(n)[0] == '0' <==> n == 0
  {
    var r := NatToString(n);
    if n >= 10 {
      NatToStringValue(n / 10);
      assert r[..|r| - 1] == NatToString(n / 10);
      assert r[0] == NatToString(n / 10)[0];
    }
  }

  function HexDigit(d: nat): (c: char)
    requires d < 16
    ensures HexDigitValue(c) == d
  {
    if d < 10 then ('0' as int + d) as char else ('a' as int + (d - 10)) as char
  }

  /** The value of a lower-case hexadecimal digit; other characters count
      as 0. */
  function HexDigitValue(c: char): nat
  {
    if '0' <= c <= '9' then c as int - '0' as int
    else if 'a' <= c <= 'f' then c as int - 'a' as int + 10
    else 0
  }

  /** The number a string of hexadecimal digits spells, most significant
      digit first. */
  function HexValue(s: string): nat
  {
    if s == [] then 0 else 16 * HexValue(s[..|s| - 1]) + HexDigitValue(s[|s| - 1])
  }

  /** `f"{x:#06x}"` for a 16-bit value: "0x" and four lower-case hex digits. */
  function Hex16(x: int): (r: string)
    requires IsU16(x)
    ensures |r| == 6 && r[..2] == "0x"
  {
    "0x" + [HexDigit(x / 0x1000), HexDigit(x / 0x100 % 0x10), HexDigit(x / 0x10 % 0x10), HexDigit(x % 0x10)]
  }

  /** The four digits after "0x" spell the value. */
  lemma Hex16Value(x: int)
    requires IsU16(x)
    ensures HexValue(Hex16(x)[2..]) == x
  {
    var d := Hex16(x)[2..];
    assert d[..3][..2][..1][..0] == [];
    assert HexValue(d[..1]) == x / 0x1000;
    assert x / 0x100 == 16 * (x / 0x1000) + x / 0x100 % 0x10;
    assert HexValue(d[..2]) == x / 0x100 by {
      assert d[..2][..1] == d[..1];
    }
    assert x / 0x10 == 16 * (x / 0x100) + x / 0x10 % 0x10;
    assert HexValue(d[..3]) == x / 0x10 by {
      assert d[..3][..2] == d[..2];
    }
    assert x == 16 * (x / 0x10) + x % 0x10;
    assert d[..4][..3] == d[..3] && d[..4] == d;
  }

  // ---------------------------------------------------------------------
  // `repr` of a bytes value, for the messages that quote received bytes

  /** Printable ASCII, which `repr` shows as itself. */
  predicate Printable(b: int)
  {
    0x20 <= b < 0x7f
  }

  /** The quote `repr` puts around bytes: a single quote, unless the bytes
      hold a single quote and no double quote. */
  function QuoteFor(bs: seq<int>): char
  {
    if 0x27 in bs && 0x22 !in bs then '"' else '\''
  }

  /** One byte inside quotes `q`: the quote and the backslash escaped, tab,
      line feed and carriage return by name, other printable ASCII as
      itself, and any other byte as `\x` and two hex digits. */
  function ByteRepr(b: int, q: char): (r: string)
    requires IsByte(b) && (q == '\'' || q == '"')
    ensures 1 <= |r| <= 4
    ensures Printable(b) && b != q as int && b != '\\' as int ==> r == [b as char]
    ensures !Printable(b) && b != 9 && b != 10 && b != 13 ==> |r| == 4 && r[..2] == "\\x" && HexValue(r[2..]) == b
  {
    if b == q as int || b == '\\' as int then ['\\', b as char]
    else if b == 9 then "\\t"
    else if b == 10 then "\\n"
    else if b == 13 then "\\r"
    else if Printable(b) then [b as char]
    else
      var r := "\\x" + [HexDigit(b / 0x10), HexDigit(b % 0x10)];
      assert r[2..][..1][..0] == [] && r[2..][..1] == [HexDigit(b / 0x10)];
      assert HexValue(r[2..][..1]) == b / 0x10;
      assert b == 16 * (b / 0x10) + b % 0x10;
      r
  }

  /** The bytes between the quotes, byte by byte. */
  function ReprBody(bs: ByteString, q: char): string
    requires q == '\'' || q == '"'
  {
    if bs == [] then [] else ReprBody(bs[..|bs| - 1], q) + ByteRepr(bs[|bs| - 1], q)
  }

  /** `repr(bs)` for a `bytes` value: `b`, the quote, the escaped bytes and
      the quote again. */
  function BytesRepr(bs: ByteString): (r: string)
    ensures |r| >= 3 && r[..2] == "b" + [QuoteFor(bs)] && r[|r| - 1] == QuoteFor(bs)
  {
    "b" + [QuoteFor(bs)] + ReprBody(bs, QuoteFor(bs)) + [QuoteFor(bs)]
  }

  /** Printable bytes with no quote or backslash appear as themselves. */
  lemma {:induction false} PlainReprBody(bs: ByteString, q: char)
    requires q == '\'' || q == '"'
    requires forall i :: 0 <= i < |bs| ==> Printable(bs[i]) && bs[i] != q as int && bs[i] != '\\' as int
    ensures ReprBody(bs, q) == Decode(bs)
  {
    if bs != [] {
      var k := |bs| - 1;
      PlainReprBody(bs[..k], q);
      assert Decode(bs) == Decode(bs[..k]) + [bs[k] as char];
    }
  }

  /** Such bytes are shown as `b'...'` around their text. */
  lemma PlainRepr(bs: ByteString)
    requires forall i :: 0 <= i < |bs| ==> Printable(bs[i]) && bs[i] != 0x27 && bs[i] != 0x22 && bs[i] != '\\' as int
    ensures BytesRepr(bs) == "b'" + Decode(bs) + "'"
  {
    PlainReprBody(bs, '\'');
  }
}
